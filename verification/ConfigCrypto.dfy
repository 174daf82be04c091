/**
 Encrypting a copy and decrypting in place, over the objects themselves: keys
 and proxy settings are behind pointers, so a copy that is not deep enough would
 encrypt the configuration in use.
 */
module ConfigCrypto {
  import opened Prelude
  import opened ConfigModel
  import opened ConfigCipher

  class PrivateKey {
    var source: string
    var keyPem: string
    var filePath: string
    var passphrase: string

    constructor (v: KeyValue)
      ensures KeyOf(this) == Some(v)
    {
      source, keyPem, filePath, passphrase := v.source, v.keyPem, v.filePath, v.passphrase;
    }
  }

  class SocksCfg {
    var auth: string
    var username: string
    var password: string
    var allowCIDRs: seq<string>
    var denyCIDRs: seq<string>

    constructor (v: SocksValue)
      ensures SocksOf(this) == Some(v)
    {
      auth, username, password, allowCIDRs, denyCIDRs := v.auth, v.username, v.password, v.allowCIDRs, v.denyCIDRs;
    }
  }

  type ConnectionRef = Connection<PrivateKey?>
  type MappingRef = Mapping<SocksCfg?>
  type TunnelRef = Tunnel<array<MappingRef>>

  class ConfigObject {
    var settings: Settings
    var connections: array<ConnectionRef>
    var tunnels: array<TunnelRef>

    constructor (settings: Settings, connections: array<ConnectionRef>, tunnels: array<TunnelRef>)
      ensures this.settings == settings && this.connections == connections && this.tunnels == tunnels
    {
      this.settings, this.connections, this.tunnels := settings, connections, tunnels;
    }
  }

  // ---------------------------------------------------------------- what the objects say

  function KeyOf(p: PrivateKey?): Option<KeyValue>
    reads p
  {
    if p == null then None else Some(KeyValue(p.source, p.keyPem, p.filePath, p.passphrase))
  }

  function SocksOf(p: SocksCfg?): Option<SocksValue>
    reads p
  {
    if p == null then None else Some(SocksValue(p.auth, p.username, p.password, p.allowCIDRs, p.denyCIDRs))
  }

  function ConnectionOf(c: ConnectionRef): ConnectionValue
    reads c.auth.privateKey
  {
    Connection(
      c.id, c.name, c.endpoint, Auth(c.auth.kind, c.auth.username, c.auth.password, KeyOf(c.auth.privateKey)),
      c.hostKeyMode, c.dialTimeoutMs, c.keepAlive)
  }

  function MappingOf(m: MappingRef): MappingValue
    reads m.socks5
  {
    Mapping(m.id, m.listen, m.connect, SocksOf(m.socks5), m.notes)
  }

  /** The keys that connections point to, and the proxy settings that mappings point to. */
  ghost function Keys(cs: seq<ConnectionRef>): set<PrivateKey> {
    set i | 0 <= i < |cs| && cs[i].auth.privateKey != null :: cs[i].auth.privateKey
  }

  ghost function Proxies(ms: seq<MappingRef>): set<SocksCfg> {
    set i | 0 <= i < |ms| && ms[i].socks5 != null :: ms[i].socks5
  }

  function MappingsOf(ms: seq<MappingRef>): (r: seq<MappingValue>)
    reads Proxies(ms)
    ensures |r| == |ms| && forall i :: 0 <= i < |ms| ==> r[i] == MappingOf(ms[i])
  {
    seq(|ms|, i requires 0 <= i < |ms| reads Proxies(ms) => MappingOf(ms[i]))
  }

  function TunnelOf(t: TunnelRef): TunnelValue
    reads t.mappings, Proxies(t.mappings[..])
  {
    Tunnel(t.id, t.name, t.notes, t.mode, t.chain, MappingsOf(t.mappings[..]), t.policy)
  }

  function ConnectionsOf(cs: seq<ConnectionRef>): (r: seq<ConnectionValue>)
    reads Keys(cs)
    ensures |r| == |cs| && forall i :: 0 <= i < |cs| ==> r[i] == ConnectionOf(cs[i])
  {
    seq(|cs|, i requires 0 <= i < |cs| reads Keys(cs) => ConnectionOf(cs[i]))
  }

  function TunnelsOf(ts: seq<TunnelRef>): (r: seq<TunnelValue>)
    reads *
    ensures |r| == |ts| && forall i :: 0 <= i < |ts| ==> r[i] == TunnelOf(ts[i])
  {
    seq(|ts|, i requires 0 <= i < |ts| reads * => TunnelOf(ts[i]))
  }

  function ValueOf(cfg: ConfigObject): Config
    reads *
  {
    Config(cfg.settings, ConnectionsOf(cfg.connections[..]), TunnelsOf(cfg.tunnels[..]))
  }

  /** No two connections share a key. */
  ghost predicate KeysApart(cs: seq<ConnectionRef>) {
    forall i, j :: 0 <= i < j < |cs| && cs[i].auth.privateKey != null ==> cs[i].auth.privateKey != cs[j].auth.privateKey
  }

  ghost predicate ProxiesApart(ms: seq<MappingRef>) {
    forall i, j :: 0 <= i < j < |ms| && ms[i].socks5 != null ==> ms[i].socks5 != ms[j].socks5
  }

  /** No two tunnels share mappings or proxy settings. */
  ghost predicate TunnelsApart(ts: seq<TunnelRef>)
    reads *
  {
    && (forall i :: 0 <= i < |ts| ==> ProxiesApart(ts[i].mappings[..]))
    && (forall i, j :: 0 <= i < j < |ts| ==>
          ts[i].mappings != ts[j].mappings && Proxies(ts[i].mappings[..]) !! Proxies(ts[j].mappings[..]))
  }

  /** All the proxy settings of some tunnels. */
  ghost function AllProxies(ts: seq<TunnelRef>): set<SocksCfg>
    reads set i | 0 <= i < |ts| :: ts[i].mappings
  {
    set i, j | 0 <= i < |ts| && 0 <= j < ts[i].mappings.Length && ts[i].mappings[j].socks5 != null :: ts[i].mappings[j].socks5
  }

  twostate lemma TunnelsStand(ts: seq<TunnelRef>)
    requires forall i :: 0 <= i < |ts| ==> unchanged(ts[i].mappings) && unchanged(Proxies(ts[i].mappings[..]))
    ensures forall i :: 0 <= i < |ts| ==> ts[i].mappings[..] == old(ts[i].mappings[..])
    ensures TunnelsOf(ts) == old(TunnelsOf(ts))
  {
    forall i | 0 <= i < |ts| ensures ts[i].mappings[..] == old(ts[i].mappings[..]) && TunnelOf(ts[i]) == old(TunnelOf(ts[i])) {
      var t := ts[i];
      assert t.mappings[..] == old(t.mappings[..]);
      assert MappingsOf(t.mappings[..]) == old(MappingsOf(t.mappings[..]));
    }
  }

  twostate lemma ConnectionsStand(cs: seq<ConnectionRef>)
    requires unchanged(Keys(cs))
    ensures ConnectionsOf(cs) == old(ConnectionsOf(cs))
  {
    assert forall i :: 0 <= i < |cs| && cs[i].auth.privateKey != null ==> cs[i].auth.privateKey in Keys(cs);
  }

  // ---------------------------------------------------------------- the encryptor

  class Encryptor {
    const cipher: Cipher
    const fails: nat -> bool
    var calls: nat

    constructor (cipher: Cipher, fails: nat -> bool)
      ensures this.cipher == cipher && this.fails == fails && calls == 0
    {
      this.cipher, this.fails, calls := cipher, fails, 0;
    }

    /** One of the nonces drawn from one call up to another could not be had. */
    ghost predicate FailsIn(first: nat, next: nat) {
      cipher.Aes? && exists k :: first <= k < next && fails(k)
    }

    /** Every call draws a nonce, and drawing one may fail. */
    method Encrypt(s: string) returns (r: Option<string>)
      modifies this
      ensures calls == old(calls) + 1
      ensures r == if cipher.Aes? && fails(old(calls)) then None else Some(cipher.Encrypt(old(calls), s))
    {
      var nonce := calls;
      calls := calls + 1;
      if cipher.Aes? && fails(nonce) {
        return None;
      }
      return Some(cipher.Encrypt(nonce, s));
    }

    method EncryptField(s: string) returns (r: Option<string>)
      modifies this
      ensures old(calls) <= calls && (r.None? <==> FailsIn(old(calls), calls))
      ensures r.Some? ==> Seals(cipher, s, r.value)
    {
      if s == "" || IsEncrypted(s) {
        assert s == EncryptedField(cipher, 0, s);
        return Some(s);
      }
      ghost var nonce := calls;
      r := Encrypt(s);
      assert r.Some? ==> r.value == EncryptedField(cipher, nonce, s);
    }

    /** The password is rewritten in the auth itself; the key is copied before it is. */
    method EncryptAuth(a: Auth<PrivateKey?>) returns (r: Option<Auth<PrivateKey?>>)
      modifies this
      ensures old(calls) <= calls && (r.None? <==> FailsIn(old(calls), calls))
      ensures r.Some? ==>
                && r.value.kind == a.kind && r.value.username == a.username && Seals(cipher, a.password, r.value.password)
                && (a.privateKey == null <==> r.value.privateKey == null)
                && (a.privateKey != null ==>
                      && fresh(r.value.privateKey)
                      && KeysRelate(Sealing(cipher), old(KeyOf(a.privateKey)).value, KeyOf(r.value.privateKey).value))
    {
      var password := EncryptField(a.password);
      if password.None? {
        return None;
      }
      if a.privateKey == null {
        return Some(a.(password := password.value));
      }
      var pk := new PrivateKey(KeyOf(a.privateKey).value);
      var keyPem := EncryptField(pk.keyPem);
      if keyPem.None? {
        return None;
      }
      pk.keyPem := keyPem.value;
      var passphrase := EncryptField(pk.passphrase);
      if passphrase.None? {
        return None;
      }
      pk.passphrase := passphrase.value;
      return Some(a.(password := password.value, privateKey := pk));
    }

    method EncryptConnections(a: array<ConnectionRef>) returns (ok: bool, conns: array<ConnectionRef>)
      modifies this
      ensures old(calls) <= calls && (ok <==> !FailsIn(old(calls), calls))
      ensures fresh(conns) && conns.Length == a.Length
      ensures ok ==> forall i :: 0 <= i < a.Length ==>
                && ConnectionsRelate(Sealing(cipher), old(ConnectionOf(a[i])), ConnectionOf(conns[i]))
                && (conns[i].auth.privateKey != null ==> fresh(conns[i].auth.privateKey))
    {
      conns := new ConnectionRef[a.Length](i requires 0 <= i < a.Length reads a => a[i]);
      for i := 0 to conns.Length
        invariant old(calls) <= calls && !FailsIn(old(calls), calls)
        invariant forall k :: i <= k < a.Length ==> conns[k] == a[k]
        invariant forall k :: 0 <= k < i ==>
                    && ConnectionsRelate(Sealing(cipher), old(ConnectionOf(a[k])), ConnectionOf(conns[k]))
                    && (conns[k].auth.privateKey != null ==> fresh(conns[k].auth.privateKey))
      {
        var auth := EncryptAuth(conns[i].auth);
        if auth.None? {
          return false, conns;
        }
        conns[i] := conns[i].(auth := auth.value);
      }
      return true, conns;
    }

    method EncryptMappings(a: array<MappingRef>) returns (ok: bool, mappings: array<MappingRef>)
      modifies this
      ensures old(calls) <= calls && (ok <==> !FailsIn(old(calls), calls))
      ensures fresh(mappings) && mappings.Length == a.Length
      ensures ok ==> forall j :: 0 <= j < a.Length ==>
                && MappingsRelate(Sealing(cipher), old(MappingOf(a[j])), MappingOf(mappings[j]))
                && (mappings[j].socks5 != null ==> fresh(mappings[j].socks5))
    {
      mappings := new MappingRef[a.Length](j requires 0 <= j < a.Length reads a => a[j]);
      for j := 0 to mappings.Length
        invariant old(calls) <= calls && !FailsIn(old(calls), calls)
        invariant forall k :: j <= k < a.Length ==> mappings[k] == a[k]
        invariant forall k :: 0 <= k < j ==>
                    && MappingsRelate(Sealing(cipher), old(MappingOf(a[k])), MappingOf(mappings[k]))
                    && (mappings[k].socks5 != null ==> fresh(mappings[k].socks5))
      {
        if mappings[j].socks5 != null {
          var s5 := new SocksCfg(SocksOf(mappings[j].socks5).value);
          var password := EncryptField(s5.password);
          if password.None? {
            return false, mappings;
          }
          s5.password := password.value;
          mappings[j] := mappings[j].(socks5 := s5);
        }
      }
      return true, mappings;
    }

    /** The i-th tunnel gets mappings of its own; no other tunnel is touched. */
    method EncryptTunnel(tunnels: array<TunnelRef>, i: nat) returns (ok: bool)
      requires i < tunnels.Length
      modifies this, tunnels
      ensures old(calls) <= calls && (ok <==> !FailsIn(old(calls), calls))
      ensures ok ==>
                && TunnelsRelate(Sealing(cipher), old(TunnelOf(tunnels[i])), TunnelOf(tunnels[i]))
                && fresh(tunnels[i].mappings) && fresh(Proxies(tunnels[i].mappings[..]))
      ensures forall k :: 0 <= k < tunnels.Length && k != i ==>
                && tunnels[k] == old(tunnels[k]) && tunnels[k].mappings[..] == old(tunnels[k].mappings[..])
                && TunnelOf(tunnels[k]) == old(TunnelOf(tunnels[k]))
    {
      var done, mappings := EncryptMappings(tunnels[i].mappings);
      if done {
        tunnels[i] := tunnels[i].(mappings := mappings);
      }
      forall k | 0 <= k < tunnels.Length && k != i ensures TunnelOf(tunnels[k]) == old(TunnelOf(tunnels[k])) {
        var other := tunnels[k];
        assert other.mappings[..] == old(other.mappings[..]);
        assert MappingsOf(other.mappings[..]) == old(MappingsOf(other.mappings[..]));
      }
      return done;
    }

    method EncryptTunnels(a: array<TunnelRef>) returns (ok: bool, tunnels: array<TunnelRef>)
      modifies this
      ensures old(calls) <= calls && (ok <==> !FailsIn(old(calls), calls))
      ensures fresh(tunnels) && tunnels.Length == a.Length
      ensures ok ==> forall i :: 0 <= i < a.Length ==>
                && TunnelsRelate(Sealing(cipher), old(TunnelOf(a[i])), TunnelOf(tunnels[i]))
                && fresh(tunnels[i].mappings) && fresh(Proxies(tunnels[i].mappings[..]))
    {
      ghost var was := TunnelsOf(a[..]);
      tunnels := new TunnelRef[a.Length](i requires 0 <= i < a.Length reads a => a[i]);
      forall k | 0 <= k < a.Length ensures TunnelOf(tunnels[k]) == was[k] {
        assert tunnels[k] == a[k] && a[k].mappings[..] == old(a[k].mappings[..]);
        assert MappingsOf(a[k].mappings[..]) == old(MappingsOf(a[k].mappings[..]));
      }
      for i := 0 to tunnels.Length
        invariant old(calls) <= calls && !FailsIn(old(calls), calls)
        invariant forall k :: i <= k < a.Length ==> TunnelOf(tunnels[k]) == was[k]
        invariant forall k :: 0 <= k < i ==> TunnelsRelate(Sealing(cipher), was[k], TunnelOf(tunnels[k]))
        invariant forall k :: 0 <= k < i ==> fresh(tunnels[k].mappings) && fresh(Proxies(tunnels[k].mappings[..]))
      {
        var done := EncryptTunnel(tunnels, i);
        if !done {
          return false, tunnels;
        }
      }
      return true, tunnels;
    }

    method EncryptParts(cfg: ConfigObject) returns (ok: bool, conns: array<ConnectionRef>, tunnels: array<TunnelRef>)
      modifies this
      ensures old(calls) <= calls && (ok <==> !FailsIn(old(calls), calls))
      ensures fresh(conns) && fresh(tunnels)
      ensures ok ==>
                && Encrypts(cipher, old(ValueOf(cfg)), Config(cfg.settings, ConnectionsOf(conns[..]), TunnelsOf(tunnels[..])))
                && fresh(Keys(conns[..]))
                && (forall i :: 0 <= i < tunnels.Length ==>
                      fresh(tunnels[i].mappings) && fresh(Proxies(tunnels[i].mappings[..])))
    {
      ghost var rel, was := Sealing(cipher), ValueOf(cfg);
      ok, conns := EncryptConnections(cfg.connections);
      if !ok {
        tunnels := new TunnelRef[0];
        return;
      }
      ghost var sealed := ConnectionsOf(conns[..]);
      assert forall i :: 0 <= i < |sealed| ==> ConnectionsRelate(rel, was.connections[i], sealed[i]);
      TunnelsStand(cfg.tunnels[..]);
      ok, tunnels := EncryptTunnels(cfg.tunnels);
      assert ConnectionsOf(conns[..]) == sealed;
    }

    /**
     The copy is deep as far as secrets go: everything a secret is written to is
     new, and of what there was before only the encryptor's own state is written.
     */
    method EncryptConfig(cfg: ConfigObject) returns (r: Option<ConfigObject>)
      modifies this
      ensures old(calls) <= calls && (r.None? <==> FailsIn(old(calls), calls))
      ensures r.Some? ==>
                && Encrypts(cipher, old(ValueOf(cfg)), ValueOf(r.value))
                && fresh(r.value) && fresh(r.value.connections) && fresh(r.value.tunnels)
                && fresh(Keys(r.value.connections[..]))
                && (forall i :: 0 <= i < r.value.tunnels.Length ==>
                      fresh(r.value.tunnels[i].mappings) && fresh(Proxies(r.value.tunnels[i].mappings[..])))
    {
      var ok, conns, tunnels := EncryptParts(cfg);
      if !ok {
        return None;
      }
      label parts:
      var out := new ConfigObject(cfg.settings, conns, tunnels);
      TunnelsStand@parts(tunnels[..]);
      return Some(out);
    }

    // -------------------------------------------------------------- decryption

    method Decrypt(s: string) returns (r: Option<string>)
      ensures r == cipher.Decrypt(s)
    {
      r := cipher.Decrypt(s);
    }

    method DecryptField(s: string) returns (r: Option<string>)
      ensures r == DecryptedField(cipher, s)
    {
      if !IsEncrypted(s) {
        return Some(s);
      }
      r := Decrypt(s);
    }

    /** The auth of the i-th connection, rewritten where it is, and its key through the pointer. */
    method DecryptAuth(conns: array<ConnectionRef>, i: nat) returns (ok: bool)
      requires i < conns.Length
      modifies conns, conns[i].auth.privateKey
      ensures conns[i].auth.privateKey == old(conns[i].auth.privateKey)
      ensures forall k :: 0 <= k < conns.Length && k != i ==> conns[k] == old(conns[k])
      ensures ok ==> ConnectionsRelate(Opening(cipher), old(ConnectionOf(conns[i])), ConnectionOf(conns[i]))
      ensures !ok ==> !ConnectionKeeps(Decryptable(cipher), old(ConnectionOf(conns[i])))
    {
      var password := DecryptField(conns[i].auth.password);
      if password.None? {
        assert !Decryptable(cipher)(ConnectionSecrets(old(ConnectionOf(conns[i])))[0]);
        return false;
      }
      conns[i] := conns[i].(auth := conns[i].auth.(password := password.value));
      var pk := conns[i].auth.privateKey;
      if pk != null {
        var keyPem := DecryptField(pk.keyPem);
        if keyPem.None? {
          assert !Decryptable(cipher)(ConnectionSecrets(old(ConnectionOf(conns[i])))[1]);
          return false;
        }
        pk.keyPem := keyPem.value;
        var passphrase := DecryptField(pk.passphrase);
        if passphrase.None? {
          assert !Decryptable(cipher)(ConnectionSecrets(old(ConnectionOf(conns[i])))[2]);
          return false;
        }
        pk.passphrase := passphrase.value;
      }
      return true;
    }

    method DecryptConnections(conns: array<ConnectionRef>) returns (ok: bool)
      requires KeysApart(conns[..])
      modifies conns, Keys(conns[..])
      ensures forall i :: 0 <= i < conns.Length ==> conns[i].auth.privateKey == old(conns[i].auth.privateKey)
      ensures ok ==> forall i :: 0 <= i < conns.Length ==>
                ConnectionsRelate(Opening(cipher), old(ConnectionOf(conns[i])), ConnectionOf(conns[i]))
      ensures !ok ==> exists i :: 0 <= i < conns.Length && !ConnectionKeeps(Decryptable(cipher), old(ConnectionOf(conns[i])))
    {
      ghost var was := conns[..];
      for i := 0 to conns.Length
        invariant forall k :: 0 <= k < conns.Length ==> conns[k].auth.privateKey == was[k].auth.privateKey
        invariant forall k :: i <= k < conns.Length ==> conns[k] == was[k] && ConnectionOf(conns[k]) == old(ConnectionOf(conns[k]))
        invariant forall k :: 0 <= k < i ==> ConnectionsRelate(Opening(cipher), old(ConnectionOf(conns[k])), ConnectionOf(conns[k]))
      {
        var done := DecryptAuth(conns, i);
        if !done {
          return false;
        }
      }
      return true;
    }

    method DecryptMappings(ms: array<MappingRef>) returns (ok: bool)
      requires ProxiesApart(ms[..])
      modifies Proxies(ms[..])
      ensures ok ==> forall j :: 0 <= j < ms.Length ==>
                MappingsRelate(Opening(cipher), old(MappingOf(ms[j])), MappingOf(ms[j]))
      ensures !ok ==> exists j :: 0 <= j < ms.Length && !MappingKeeps(Decryptable(cipher), old(MappingOf(ms[j])))
    {
      for j := 0 to ms.Length
        invariant forall k :: j <= k < ms.Length ==> MappingOf(ms[k]) == old(MappingOf(ms[k]))
        invariant forall k :: 0 <= k < j ==> MappingsRelate(Opening(cipher), old(MappingOf(ms[k])), MappingOf(ms[k]))
      {
        var s5 := ms[j].socks5;
        if s5 != null {
          assert s5 in Proxies(ms[..]);
          var password := DecryptField(s5.password);
          if password.None? {
            return false;
          }
          s5.password := password.value;
        }
      }
      return true;
    }

    method DecryptTunnels(ts: array<TunnelRef>) returns (ok: bool)
      requires TunnelsApart(ts[..])
      modifies AllProxies(ts[..])
      ensures ok ==> forall i :: 0 <= i < ts.Length ==>
                TunnelsRelate(Opening(cipher), old(TunnelOf(ts[i])), TunnelOf(ts[i]))
      ensures !ok ==> exists i :: 0 <= i < ts.Length && !TunnelKeeps(Decryptable(cipher), old(TunnelOf(ts[i])))
    {
      ghost var all, was := ts[..], TunnelsOf(ts[..]);
      for i := 0 to ts.Length
        invariant forall k :: i <= k < ts.Length ==> TunnelOf(ts[k]) == was[k]
        invariant forall k :: 0 <= k < i ==> TunnelsRelate(Opening(cipher), was[k], TunnelOf(ts[k]))
      {
        var done := DecryptTunnel(ts[i], all, i);
        if !done {
          return false;
        }
      }
      return true;
    }

    /** The mappings of one tunnel; what the other tunnels point to is out of reach. */
    method DecryptTunnel(t: TunnelRef, ghost ts: seq<TunnelRef>, ghost i: nat) returns (ok: bool)
      requires TunnelsApart(ts) && i < |ts| && t == ts[i]
      modifies Proxies(t.mappings[..])
      ensures ok ==> TunnelsRelate(Opening(cipher), old(TunnelOf(t)), TunnelOf(t))
      ensures !ok ==> !TunnelKeeps(Decryptable(cipher), old(TunnelOf(t)))
      ensures forall k :: 0 <= k < |ts| && k != i ==> TunnelOf(ts[k]) == old(TunnelOf(ts[k]))
    {
      ok := DecryptMappings(t.mappings);
      forall k | 0 <= k < |ts| && k != i ensures TunnelOf(ts[k]) == old(TunnelOf(ts[k])) {
        var other := ts[k];
        assert other.mappings[..] == old(other.mappings[..]);
        assert Proxies(other.mappings[..]) !! Proxies(t.mappings[..]);
        assert MappingsOf(other.mappings[..]) == old(MappingsOf(other.mappings[..]));
      }
    }

    /** The connections of a configuration; its tunnels keep what they said, and their arrays what they held. */
    method DecryptConnectionsOf(cfg: ConfigObject) returns (ok: bool)
      requires KeysApart(cfg.connections[..]) && TunnelsApart(cfg.tunnels[..])
      modifies cfg.connections, Keys(cfg.connections[..])
      ensures TunnelsOf(cfg.tunnels[..]) == old(TunnelsOf(cfg.tunnels[..]))
      ensures TunnelsApart(cfg.tunnels[..]) && AllProxies(cfg.tunnels[..]) == old(AllProxies(cfg.tunnels[..]))
      ensures ok ==> forall i :: 0 <= i < cfg.connections.Length ==>
                ConnectionsRelate(Opening(cipher), old(ConnectionOf(cfg.connections[i])), ConnectionOf(cfg.connections[i]))
      ensures !ok ==> !Keeps(Decryptable(cipher), old(ValueOf(cfg)))
    {
      ghost var was := ValueOf(cfg);
      ghost var ts := cfg.tunnels[..];
      ok := DecryptConnections(cfg.connections);
      TunnelsStand(ts);
    }

    /**
     Everything in place, provided nothing is shared. It fails only on a secret
     that cannot be decrypted.
     */
    method DecryptConfig(cfg: ConfigObject) returns (ok: bool)
      requires KeysApart(cfg.connections[..]) && TunnelsApart(cfg.tunnels[..])
      modifies cfg.connections, Keys(cfg.connections[..]), AllProxies(cfg.tunnels[..])
      ensures ok ==> Decrypts(cipher, old(ValueOf(cfg)), ValueOf(cfg))
      ensures !ok ==> !Keeps(Decryptable(cipher), old(ValueOf(cfg)))
    {
      ghost var rel, was := Opening(cipher), ValueOf(cfg);
      var connected := DecryptConnectionsOf(cfg);
      if !connected {
        return false;
      }
      ghost var conns := ConnectionsOf(cfg.connections[..]);
      assert forall i :: 0 <= i < |conns| ==> ConnectionsRelate(rel, was.connections[i], conns[i]);
      label before:
      var mapped := DecryptTunnels(cfg.tunnels);
      if !mapped {
        return false;
      }
      ConnectionsStand@before(cfg.connections[..]);
      return true;
    }
  }
}
