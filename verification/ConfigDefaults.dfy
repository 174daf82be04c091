/** Filling in what a configuration leaves out. */
module ConfigDefaults {
  import opened ConfigModel

  function IntOr(x: int, d: int): int { if x == 0 then d else x }

  function TextOr(x: string, d: string): string { if x == "" then d else x }

  function ConnectionDefaults<K>(c: Connection<K>): Connection<K> {
    c.(dialTimeoutMs := IntOr(c.dialTimeoutMs, 10000),
       keepAlive := KeepAlive(IntOr(c.keepAlive.intervalMs, 15000), IntOr(c.keepAlive.maxMissed, 3)),
       hostKeyMode := TextOr(c.hostKeyMode, "acceptNew"))
  }

  function MappingDefaults<S>(m: Mapping<S>): Mapping<S> {
    m.(listen := m.listen.(host := TextOr(m.listen.host, "127.0.0.1")))
  }

  function MappingsDefaults<S>(ms: seq<Mapping<S>>): (r: seq<Mapping<S>>)
    ensures |r| == |ms| && forall i :: 0 <= i < |ms| ==> r[i] == MappingDefaults(ms[i])
  {
    seq(|ms|, i requires 0 <= i < |ms| => MappingDefaults(ms[i]))
  }

  /** A policy without a backoff restarts automatically; one with a backoff keeps its choice. */
  function PolicyDefaults(p: Policy): Policy {
    var b := p.restartBackoff;
    Policy(
      p.autoStart,
      p.autoRestart || (b.minMs == 0 && b.maxMs == 0),
      RestartBackoff(IntOr(b.minMs, 500), IntOr(b.maxMs, 15000), if b.factor == 0.0 then 1.7 else b.factor),
      IntOr(p.maxRestartsPerHour, 60),
      IntOr(p.gracefulStopTimeoutMs, 5000))
  }

  function TunnelDefaults(t: TunnelValue): TunnelValue {
    t.(mappings := MappingsDefaults(t.mappings), policy := PolicyDefaults(t.policy))
  }

  function SettingsDefaults(s: Settings): Settings {
    s.(general := s.general.(logLevel := TextOr(s.general.logLevel, "info"), language := TextOr(s.general.language, "en")),
       theme := TextOr(s.theme, "light"),
       closeAction := TextOr(s.closeAction, "ask"))
  }

  function ConnectionsDefaults(cs: seq<ConnectionValue>): (r: seq<ConnectionValue>)
    ensures |r| == |cs| && forall i :: 0 <= i < |cs| ==> r[i] == ConnectionDefaults(cs[i])
  {
    seq(|cs|, i requires 0 <= i < |cs| => ConnectionDefaults(cs[i]))
  }

  function TunnelsDefaults(ts: seq<TunnelValue>): (r: seq<TunnelValue>)
    ensures |r| == |ts| && forall i :: 0 <= i < |ts| ==> r[i] == TunnelDefaults(ts[i])
  {
    seq(|ts|, i requires 0 <= i < |ts| => TunnelDefaults(ts[i]))
  }

  function Defaults(c: Config): Config {
    Config(SettingsDefaults(c.settings), ConnectionsDefaults(c.connections), TunnelsDefaults(c.tunnels))
  }

  // ---------------------------------------------------------------- normal form

  predicate ConnectionNormal<K>(c: Connection<K>) {
    && c.dialTimeoutMs != 0 && c.keepAlive.intervalMs != 0 && c.keepAlive.maxMissed != 0 && c.hostKeyMode != ""
  }

  predicate MappingsNormal<S>(ms: seq<Mapping<S>>) {
    forall i :: 0 <= i < |ms| ==> ms[i].listen.host != ""
  }

  predicate PolicyNormal(p: Policy) {
    && p.restartBackoff.minMs != 0 && p.restartBackoff.maxMs != 0 && p.restartBackoff.factor != 0.0
    && p.maxRestartsPerHour != 0 && p.gracefulStopTimeoutMs != 0
  }

  predicate TunnelNormal(t: TunnelValue) {
    MappingsNormal(t.mappings) && PolicyNormal(t.policy)
  }

  predicate SettingsNormal(s: Settings) {
    s.general.logLevel != "" && s.general.language != "" && s.theme != "" && s.closeAction != ""
  }

  /** Nothing a default would fill in is missing. */
  predicate Normal(c: Config) {
    && SettingsNormal(c.settings)
    && (forall i :: 0 <= i < |c.connections| ==> ConnectionNormal(c.connections[i]))
    && (forall i :: 0 <= i < |c.tunnels| ==> TunnelNormal(c.tunnels[i]))
  }

  lemma MappingsDefaultsSettle<S>(ms: seq<Mapping<S>>)
    ensures MappingsNormal(MappingsDefaults(ms))
    ensures MappingsDefaults(ms) == ms <==> MappingsNormal(ms)
  {
    var r := MappingsDefaults(ms);
    if r == ms {
      forall i | 0 <= i < |ms| ensures ms[i].listen.host != "" {
        assert r[i] == MappingDefaults(ms[i]);
      }
    }
  }

  lemma PolicyDefaultsSettle(p: Policy)
    ensures PolicyNormal(PolicyDefaults(p))
    ensures PolicyDefaults(p) == p <==> PolicyNormal(p)
  {
  }

  lemma TunnelDefaultsSettle(t: TunnelValue)
    ensures TunnelNormal(TunnelDefaults(t))
    ensures TunnelDefaults(t) == t <==> TunnelNormal(t)
  {
    MappingsDefaultsSettle(t.mappings);
    PolicyDefaultsSettle(t.policy);
  }

  lemma ConnectionsDefaultsSettle(cs: seq<ConnectionValue>)
    ensures ConnectionsDefaults(cs) == cs <==> forall i :: 0 <= i < |cs| ==> ConnectionNormal(cs[i])
  {
    var r := ConnectionsDefaults(cs);
    if r == cs {
      forall i | 0 <= i < |cs| ensures ConnectionNormal(cs[i]) {
        assert r[i] == ConnectionDefaults(cs[i]);
      }
    }
  }

  lemma TunnelsDefaultsSettle(ts: seq<TunnelValue>)
    ensures TunnelsDefaults(ts) == ts <==> forall i :: 0 <= i < |ts| ==> TunnelNormal(ts[i])
  {
    var r := TunnelsDefaults(ts);
    if r == ts {
      forall i | 0 <= i < |ts| ensures TunnelNormal(ts[i]) {
        assert r[i] == TunnelDefaults(ts[i]);
        TunnelDefaultsSettle(ts[i]);
      }
    } else if forall i :: 0 <= i < |ts| ==> TunnelNormal(ts[i]) {
      forall i | 0 <= i < |ts| ensures r[i] == ts[i] {
        TunnelDefaultsSettle(ts[i]);
      }
    }
  }

  /** The defaults leave a configuration alone exactly when it is normal, and always make it so: they are idempotent. */
  lemma DefaultsSettle(c: Config)
    ensures Normal(Defaults(c))
    ensures Defaults(c) == c <==> Normal(c)
    ensures Defaults(Defaults(c)) == Defaults(c)
  {
    NormalIsAFixpoint(c);
    forall i | 0 <= i < |c.tunnels| ensures TunnelNormal(TunnelDefaults(c.tunnels[i])) {
      TunnelDefaultsSettle(c.tunnels[i]);
    }
    NormalIsAFixpoint(Defaults(c));
  }

  lemma NormalIsAFixpoint(c: Config)
    ensures Defaults(c) == c <==> Normal(c)
  {
    ConnectionsDefaultsSettle(c.connections);
    TunnelsDefaultsSettle(c.tunnels);
  }

  // ---------------------------------------------------------------- in place

  method ApplySSHConnectionDefaults<K>(conn: Connection<K>) returns (c: Connection<K>)
    ensures c == ConnectionDefaults(conn)
  {
    c := conn;
    if c.dialTimeoutMs == 0 {
      c := c.(dialTimeoutMs := 10000);
    }
    if c.keepAlive.intervalMs == 0 {
      c := c.(keepAlive := c.keepAlive.(intervalMs := 15000));
    }
    if c.keepAlive.maxMissed == 0 {
      c := c.(keepAlive := c.keepAlive.(maxMissed := 3));
    }
    if c.hostKeyMode == "" {
      c := c.(hostKeyMode := "acceptNew");
    }
  }

  method ApplyMappingDefaults<S>(ms: array<Mapping<S>>, i: nat)
    requires i < ms.Length
    modifies ms
    ensures ms[..] == old(ms[..])[i := MappingDefaults(old(ms[i]))]
  {
    if ms[i].listen.host == "" {
      ms[i] := ms[i].(listen := ms[i].listen.(host := "127.0.0.1"));
    }
  }

  method ApplyPolicyDefaults(policy: Policy) returns (p: Policy)
    ensures p == PolicyDefaults(policy)
  {
    p := policy;
    if !p.autoRestart {
      if p.restartBackoff.minMs == 0 && p.restartBackoff.maxMs == 0 {
        p := p.(autoRestart := true);
      }
    }
    if p.restartBackoff.minMs == 0 {
      p := p.(restartBackoff := p.restartBackoff.(minMs := 500));
    }
    if p.restartBackoff.maxMs == 0 {
      p := p.(restartBackoff := p.restartBackoff.(maxMs := 15000));
    }
    if p.restartBackoff.factor == 0.0 {
      p := p.(restartBackoff := p.restartBackoff.(factor := 1.7));
    }
    if p.maxRestartsPerHour == 0 {
      p := p.(maxRestartsPerHour := 60);
    }
    if p.gracefulStopTimeoutMs == 0 {
      p := p.(gracefulStopTimeoutMs := 5000);
    }
  }

  /** The policy is the tunnel's own; the mappings are written where they are, whoever shares them. */
  method ApplyTunnelDefaults<S>(tun: Tunnel<array<Mapping<S>>>) returns (t: Tunnel<array<Mapping<S>>>)
    modifies tun.mappings
    ensures t == tun.(policy := PolicyDefaults(tun.policy))
    ensures tun.mappings[..] == MappingsDefaults(old(tun.mappings[..]))
  {
    t := tun;
    ghost var before := t.mappings[..];
    for i := 0 to t.mappings.Length
      invariant forall k :: 0 <= k < i ==> t.mappings[k] == MappingDefaults(before[k])
      invariant forall k :: i <= k < t.mappings.Length ==> t.mappings[k] == before[k]
    {
      ghost var prior := t.mappings[..];
      ApplyMappingDefaults(t.mappings, i);
      assert forall k :: 0 <= k < t.mappings.Length ==> t.mappings[k] == prior[i := MappingDefaults(prior[i])][k] by {
        assert forall k :: 0 <= k < t.mappings.Length ==> t.mappings[k] == t.mappings[..][k];
      }
    }
    var p := ApplyPolicyDefaults(t.policy);
    t := t.(policy := p);
  }
}
