/**
 The configuration. The places where the program holds a pointer or a slice it
 writes through are type parameters, so that one definition serves values
 (what a configuration says) and the heap (how it is shared).
 */
module ConfigModel {
  import opened Prelude

  datatype Endpoint = Endpoint(host: string, port: int)

  datatype KeyValue = KeyValue(source: string, keyPem: string, filePath: string, passphrase: string)

  datatype SocksValue = SocksValue(auth: string, username: string, password: string, allowCIDRs: seq<string>, denyCIDRs: seq<string>)

  datatype Auth<K> = Auth(kind: string, username: string, password: string, privateKey: K)

  datatype KeepAlive = KeepAlive(intervalMs: int, maxMissed: int)

  datatype Connection<K> = Connection(
    id: string, name: string, endpoint: Endpoint, auth: Auth<K>,
    hostKeyMode: string, dialTimeoutMs: int, keepAlive: KeepAlive)

  datatype Mapping<S> = Mapping(id: string, listen: Endpoint, connect: Endpoint, socks5: S, notes: string)

  datatype RestartBackoff = RestartBackoff(minMs: int, maxMs: int, factor: real)

  datatype Policy = Policy(
    autoStart: bool, autoRestart: bool, restartBackoff: RestartBackoff,
    maxRestartsPerHour: int, gracefulStopTimeoutMs: int)

  datatype Tunnel<M> = Tunnel(
    id: string, name: string, notes: string, mode: string, chain: seq<string>, mappings: M, policy: Policy)

  datatype General = General(logLevel: string, language: string, autoStart: bool)

  /** The settings that stand on their own. */
  datatype Settings = Settings(version: int, general: General, theme: string, closeAction: string)

  type ConnectionValue = Connection<Option<KeyValue>>
  type MappingValue = Mapping<Option<SocksValue>>
  type TunnelValue = Tunnel<seq<MappingValue>>

  datatype Config = Config(settings: Settings, connections: seq<ConnectionValue>, tunnels: seq<TunnelValue>)

  /** An empty configuration with its version set. */
  function NewConfig(): Config {
    Config(Settings(1, General("", "", false), "", ""), [], [])
  }

  function ConnectionIds(cs: seq<ConnectionValue>): (ids: seq<string>)
    ensures |ids| == |cs| && forall i :: 0 <= i < |cs| ==> ids[i] == cs[i].id
  {
    seq(|cs|, i requires 0 <= i < |cs| => cs[i].id)
  }

  function TunnelIds(ts: seq<TunnelValue>): (ids: seq<string>)
    ensures |ids| == |ts| && forall i :: 0 <= i < |ts| ==> ids[i] == ts[i].id
  {
    seq(|ts|, i requires 0 <= i < |ts| => ts[i].id)
  }

  function MappingIds(ms: seq<MappingValue>): (ids: seq<string>)
    ensures |ids| == |ms| && forall i :: 0 <= i < |ms| ==> ids[i] == ms[i].id
  {
    seq(|ms|, i requires 0 <= i < |ms| => ms[i].id)
  }
}
