/** What a file is loaded as, field by field. */
module ConfigLoading {
  import opened ConfigModel
  import opened ConfigDefaults
  import opened ConfigCipher
  import opened ConfigStore
  import opened ConfigEffects

  predicate SettingsLoaded(s: Settings, d: Settings) {
    && s.version == d.version && s.general.autoStart == d.general.autoStart
    && Text(s.general.logLevel, d.general.logLevel, "info") && Text(s.general.language, d.general.language, "en")
    && Text(s.theme, d.theme, "light") && Text(s.closeAction, d.closeAction, "ask")
  }

  /** A tunnel starts automatically if it did, or if it was enabled in the old format. */
  ghost predicate TunnelLoaded(t: TunnelValue, d: TunnelValue, enabled: seq<(string, bool)>) {
    && t.id == d.id && t.name == d.name && t.notes == d.notes && t.mode == d.mode && t.chain == d.chain
    && MappingsKept(t.mappings, d.mappings)
    && (t.policy.autoStart <==> d.policy.autoStart || (d.id, true) in enabled)
    && PolicyAsAsked(t.policy.(autoStart := d.policy.autoStart), d.policy)
  }

  /** v is the decrypted configuration d with nothing changed but what was left out and who starts automatically. */
  ghost predicate LoadedFrom(v: Config, d: Config, enabled: seq<(string, bool)>) {
    && SettingsLoaded(v.settings, d.settings)
    && |v.connections| == |d.connections| && |v.tunnels| == |d.tunnels|
    && (forall i :: 0 <= i < |d.connections| ==> ConnectionAsAsked(v.connections[i], d.connections[i].id, d.connections[i]))
    && (forall i :: 0 <= i < |d.tunnels| ==> TunnelLoaded(v.tunnels[i], d.tunnels[i], enabled))
  }

  lemma SettingsRead(s: Settings, d: Settings)
    ensures SettingsLoaded(s, d) <==> s == SettingsDefaults(d)
  {
  }

  lemma EnabledRead(enabled: seq<(string, bool)>, id: string)
    ensures EnabledBy(enabled, id) <==> (id, true) in enabled
  {
  }

  lemma MigratedPolicyRead(p: Policy, d: Policy, on: bool)
    ensures (p.autoStart <==> d.autoStart || on) && PolicyAsAsked(p.(autoStart := d.autoStart), d)
            <==> p == PolicyDefaults(d.(autoStart := d.autoStart || on))
  {
  }

  lemma TunnelLoadedRead(t: TunnelValue, d: TunnelValue, enabled: seq<(string, bool)>)
    ensures TunnelLoaded(t, d, enabled) <==> t == TunnelDefaults(MigratedTunnel(d, enabled))
  {
    EnabledRead(enabled, d.id);
    MigratedPolicyRead(t.policy, d.policy, EnabledBy(enabled, d.id));
    MappingsKeptRead(t.mappings, d.mappings);
  }

  lemma ConnectionsRead(vs: seq<ConnectionValue>, ds: seq<ConnectionValue>)
    ensures vs == ConnectionsDefaults(ds) <==>
              |vs| == |ds| && forall i :: 0 <= i < |ds| ==> ConnectionAsAsked(vs[i], ds[i].id, ds[i])
  {
    forall i | 0 <= i < |ds| && i < |vs| ensures ConnectionAsAsked(vs[i], ds[i].id, ds[i]) <==> vs[i] == ConnectionDefaults(ds[i]) {
      ConnectionRead(vs[i], ds[i].id, ds[i]);
    }
  }

  lemma TunnelsRead(vs: seq<TunnelValue>, ds: seq<TunnelValue>, enabled: seq<(string, bool)>)
    ensures vs == TunnelsDefaults(MigratedTunnels(ds, enabled)) <==>
              |vs| == |ds| && forall i :: 0 <= i < |ds| ==> TunnelLoaded(vs[i], ds[i], enabled)
  {
    forall i | 0 <= i < |ds| && i < |vs|
      ensures TunnelLoaded(vs[i], ds[i], enabled) <==> vs[i] == TunnelDefaults(MigratedTunnels(ds, enabled)[i])
    {
      TunnelLoadedRead(vs[i], ds[i], enabled);
    }
  }

  lemma LoadedFromRead(v: Config, d: Config, enabled: seq<(string, bool)>)
    ensures LoadedFrom(v, d, enabled) <==> v == Defaults(Migrated(d, enabled))
  {
    SettingsRead(v.settings, d.settings);
    ConnectionsRead(v.connections, d.connections);
    TunnelsRead(v.tunnels, d.tunnels, enabled);
  }

  /** A file is loaded as just that: its decryption, with what was left out filled in. */
  lemma LoadedExactly(c: Cipher, doc: Document, v: Config)
    ensures Loads(c, doc, v) <==> exists d :: Decrypts(c, doc.config, d) && LoadedFrom(v, d, doc.enabled)
  {
    if Loads(c, doc, v) {
      var d :| LoadsVia(c, doc, d, v);
      LoadedFromRead(v, d, doc.enabled);
    }
    if exists d :: Decrypts(c, doc.config, d) && LoadedFrom(v, d, doc.enabled) {
      var d :| Decrypts(c, doc.config, d) && LoadedFrom(v, d, doc.enabled);
      LoadedFromRead(v, d, doc.enabled);
      assert LoadsVia(c, doc, d, v);
    }
  }
}
