# OpsTunnel: verified model

OpsTunnel keeps SSH tunnels alive. A tunnel goes through a chain of SSH
connections, starts forwarders at its end, and is supervised: when something
breaks it is taken down, and built again after a pause, so long as a restart
budget lasts. Around that sit a configuration edited through a web API and kept
encrypted on disk, an event log mirrored in browsers, a traffic log, a SOCKS5
proxy, a store of trusted host keys and a session store.

This project models those parts in Dafny and proves what they are for.

- **Supervisor** (`SupervisorMachine`, `SupervisorSafety`, `SupervisorStop`,
  `SupervisorReach`, `SupervisorStatus`, `SupervisorKeepalive`, `SupervisorLimits`,
  `SupervisorRetry`, `SupervisorOutcomes`, `Supervisor`, `RateLimit`, `Backoff`). The run loop is a state machine over its
  program locations. Dials, handshakes, forwarder starts, keepalive failures,
  cancellation, the clock and a concurrent Stop are inputs of its steps, and a
  trace records what is opened and closed. The theorems are about every run. The
  class `TunnelSupervisor` has the loop in the source's own form and is proved,
  region by region, to do nothing the machine does not do.
- **Configuration** (`ConfigModel`, `ConfigDefaults`, `ConfigValidate`,
  `ConfigRequests`, `ConfigServer`, `ConfigCipher`, `ConfigCrypto`,
  `ConfigEffects`, `ConfigStore`, `ConfigLoading`, `ConfigRestart`, `Startup`,
  `Engine`, `EngineEdits`). Edits
  overwrite the stored configuration, validate it afterwards and put it back on
  failure; a copied tunnel shares its mappings array with the stored one. Secrets
  are encrypted on a copy and decrypted in place, behind pointers. Values and
  objects share one set of generic record types, so that aliasing is real where
  the program has it. A server starts from the file it has written.
- **Events** (`Events`, `EventSocket`). A bounded history, a bounded queue per
  subscriber that drops what does not fit, and a browser that keeps a replica.
  The bus with all its subscribers is a machine the class is proved equal to.
- **Traffic** (`Bytes`, `Sums`, `TrafficStore`, `TrafficQuery`,
  `TrafficSampler`, `TrafficEndToEnd`). Counters that may start over become
  deltas, then a byte-encoded log, then buckets on a time grid.
- **SOCKS5** (`Socks5`, `Socks5Answers`, `Dynamic`), **host keys** (`HostKeys`)
  and **sessions** (`Sessions`).

Pure functions say what each operation means; methods and classes in the
source's form are proved equal to them; lemmas prove what the operations amount
to over whole runs: not only what never happens, but that the loop comes back,
that a tunnel for which all goes well comes up, and that a request does what it
says, each told without the functions that do it. Where a promise of the program
does not hold in general the exact condition under which it does is proved
instead:

- Running means that the chain is up, in all runs whose Stops avoid certain
  reported states, exactly when Starting is one of these (or there is no hop):
  `SupervisorStatus.RunningIsUpExactlyWhenStopsAvoidStarting`. The first Stop
  may be overwritten exactly when it comes after the first dial succeeded and
  before the tunnel is up (`SupervisorStatus.StopIsOverwrittenExactlyWhenRising`).
- A keepalive failure is reported under its hop's number exactly when every
  earlier hop runs a keepalive (`SupervisorKeepalive.KeepaliveFailuresOnRecord`),
  and in all runs exactly when no hop without one comes before a hop with one
  (`SupervisorKeepalive.HopsAreNamedExactlyWhenThereIsNoGap`).
- A query conserves traffic for every log and window exactly when its step is at
  least one second (`TrafficQuery.ExactlyWhenStepsConserve`); with a smaller
  step, grid points share a bucket and an entry is counted more than once. The
  program itself never asks for a step under a minute
  (internal/api/handler_traffic.go:48-67).
- Two adjacent queries join up exactly when both halves have entries or neither
  has (`TrafficQuery.QueriesCompose`), because an empty range is answered with no
  samples at all.
- A refused patch leaves the configuration as it was exactly when it brings its
  own mappings or the stored ones lack no default
  (`ConfigRequests.RefusedRequestsChangeNothing`). Where no stored mapping lacks
  its default, which is so after a first start and which every request keeps so,
  it always does.
- A saved configuration is loaded as itself with the defaults filled in exactly
  when none of its secrets starts with the marker `ENC:`, and just as it was
  exactly when it is normal besides (`ConfigStore.SaveThenLoad`). The first
  restart of a fresh installation therefore fills in its settings; from then on
  a restart changes nothing (`ConfigRestart.LaterRestartsChangeNothing`).
- A kept supervisor runs today's configuration exactly when the tunnel and the
  connections its chain names read as they did when it was made
  (`Engine.KeptIsCurrentExactlyWhenUntouched`), and so through every run of
  requests in which nobody edits these (`EngineEdits.KeptStaysCurrent`).
- Memory and disk agree after a request exactly when it was not a deletion the
  disk refused (`ConfigRequests.DiskFollowsMemory`).
- Delivery to a subscriber is exact until the first event that meets a full
  queue, and not after it (`Events.ExactUntilTheBacklogIsFull`).
- Reading a reply as a request recovers the bound address exactly when it is a
  4-byte or a 16-byte address (`Socks5.ReplyInverse`).

Where comments in the source and its code differ, the code is followed: the
index in a keepalive failure is called the hop's, but is that of the channel
(internal/engine/supervisor.go:345-353, internal/ssh/chain.go:109-113); the
keepalive theorems above say when that is the same.

Time is integer nanoseconds, or milliseconds where the program counts those.
Libraries enter by what they promise only: a sealed text opens to itself and is
never shorter than what it contains, JSON and base64 lose nothing, the traffic
database is a finite map, and a dial under a cancelled context fails.

## Model

| member | source | states |
|---|---|---|
| `SupervisorSafety.EveryRunIsWellNested` | internal/engine/supervisor.go:100-336 | For every run and every outcome of dials, handshakes, forwarder starts, keepalives and cancellation: opens and closes are well nested, what is open is exactly what the loop holds, and nothing is open while it backs off or after it returned |
| `SupervisorSafety.EveryResourceIsClosedExactlyOnce` | internal/engine/supervisor.go:194-384 | Every connection, client and forwarder is opened at most once, never closed more often than opened, and closed exactly once whenever the loop backs off or has returned |
| `SupervisorSafety.StatusIsHonestUntilCancelled` | internal/engine/supervisor.go:123-293 | Until cancelled, the reported state is a function of where the loop is; Running means every hop and every forwarder is open; a loop that ended by itself says Error and had a rejected host key, the rate limit, or no automatic restart as its reason |
| `SupervisorSafety.NextKeepsShape` | internal/engine/supervisor.go:181-261 | Every step keeps what each location holds in agreement with the published chain and forwarders |
| `SupervisorSafety.ReachedIsWellNested` | internal/engine/supervisor.go:100-294 | The same nesting for whatever the imperative loop has been driven to |
| `SupervisorStop.CancelledLoopReturns` | internal/engine/supervisor.go:109-294 | Once cancelled, any schedule that gives the loop a bounded number of turns sees it return: a rank decreases at every location |
| `SupervisorStop.AtMostOneMoreAttempt` | internal/engine/supervisor.go:109-118 | After cancellation BuildChain is entered at most once more |
| `SupervisorStop.TheLastAttemptOpensNothing` | internal/ssh/chain.go:80-92 | Whenever a run has brought a cancelled loop back to its top, nothing is opened from there on: that attempt gets no further than its first dial |
| `SupervisorStop.StopLeavesNothingBehind` | internal/engine/supervisor.go:85-97 | A Stop that saw the loop return leaves the tunnel Stopped for good, with no chain, no forwarders and nothing open, whatever the loop wrote over Stopping |
| `SupervisorStop.StopSucceeds` | internal/engine/supervisor.go:73-98 | A Stop issued at any moment of any run and waited for long enough ends there |
| `SupervisorStatus.RunningIsUpUnlessStoppedWhileStarting` | internal/engine/supervisor.go:73-98 | If no Stop is issued while the tunnel says Starting, then over every run Running means not cancelled, with the whole chain and all forwarders there |
| `SupervisorStatus.RunningWithoutAChainDuringStop` | internal/engine/supervisor.go:221-266 | For every tunnel with a hop, a run whose Stops are all issued while Starting, and which then reads Running with the chain already gone |
| `SupervisorStatus.RunningIsUpExactlyWhenStopsAvoidStarting` | internal/engine/supervisor.go:73-98 | Both together: for a set of reported states that Stops avoid, Running can be trusted in all runs exactly when Starting is in the set, or there is no hop |
| `SupervisorStatus.StopIsOverwrittenExactlyWhenRising` | internal/engine/supervisor.go:181-228 | The first Stop of a run can be followed by the state Running exactly when it is issued after the first dial succeeded and before the tunnel is up |
| `SupervisorKeepalive.ChannelNumbersTheHop` | internal/ssh/chain.go:109-113 | The k-th keepalive channel belongs to hop k exactly when every hop before that hop runs a keepalive |
| `SupervisorKeepalive.HopHasAChannel` | internal/ssh/chain.go:109-113 | Every hop with a keepalive has a channel |
| `SupervisorKeepalive.KeepaliveFailuresOnRecord` | internal/engine/supervisor.go:345-353 | Over every run, a keepalive failure on record is that of a hop with a keepalive, reported under its number exactly when every earlier hop has one too |
| `SupervisorKeepalive.ChannelMayFail` | internal/engine/supervisor.go:338-366 | For every channel of every chain there is a run in which its failure is put on record, under the channel's number |
| `SupervisorKeepalive.HopsAreNamedExactlyWhenThereIsNoGap` | internal/engine/supervisor.go:345-353 | In all runs every keepalive failure names its hop exactly when no hop without a keepalive comes before one with |
| `SupervisorLimits.RestartsPerHour` | internal/engine/supervisor.go:386-400 | Over every run, any stretch under an hour has fewer admitted restarts than the limit, and the window kept is the checks of the hour before the latest |
| `SupervisorLimits.RetriesAreSpaced` | internal/engine/supervisor.go:402-417 | Over every run, the k-th sleep of a failure streak is a delay of attempt k, the streak starts over when the tunnel comes up, and attempts are at least the minimum delay apart |
| `SupervisorLimits.EveryVerdictIsJust` | internal/engine/supervisor.go:386-400 | Over every run, a restart is admitted exactly when fewer checks than the limit, itself included, were made in the hour up to it |
| `SupervisorRetry.AnotherAttemptFollows` | internal/engine/supervisor.go:156-176 | In every run with automatic restart that nobody stops: from any failure but a rejected host key, once the loop had turns to clean up, the longest delay and three turns more, it has made another attempt or the limiter has refused one; once it is about to sleep, or asleep, it has made the attempt |
| `SupervisorRetry.DelaysAreWithin` | internal/engine/backoff.go:18-26 | With the backoff of a valid policy that longest delay is 1.1 times the maximum |
| `SupervisorOutcomes.EveryRetryIsAdmitted` | internal/engine/supervisor.go:156-176 | Over every run, each attempt but the first was admitted by the limiter |
| `SupervisorOutcomes.RejectedHostKeysAreFinal` | internal/engine/supervisor.go:127-152 | After a rejected host key there is no further attempt, whatever else happens |
| `SupervisorOutcomes.OneAttemptWithoutRestart` | internal/engine/supervisor.go:154-156 | Without automatic restart every run has one attempt at most |
| `SupervisorOutcomes.FailuresAreReported` | internal/engine/supervisor.go:109-266 | Whatever fails in a run that nobody stops (an authentication, a dial, a handshake, a host key, a forwarder, a keepalive), and at which hop or mapping: as soon as the loop has cleaned up, just that is on record, with the host key detail exactly for a host key, and the state is Degraded for a tunnel that served and Error otherwise |
| `SupervisorOutcomes.ComesUp` | internal/engine/supervisor.go:109-228 | From the top, or anywhere on the way up, a tunnel for which every answer is good and that nobody stops comes up, in a bounded number of turns |
| `RateLimit.NoteKeepsTheWindow` | internal/engine/supervisor.go:387-397 | The window kept is the checks of the hour before the latest, in order; noting a check leaves exactly those of the hour before it, and itself |
| `RateLimit.AdmissionsPerHour` | internal/engine/supervisor.go:386-400 | Any stretch under an hour contains fewer admissions than the limit, and none under a limit that is not positive |
| `RateLimit.CompactInPlace` | internal/engine/supervisor.go:390-395 | Filtering over the window's own backing array leaves exactly the later instants, in order, in front |
| `RateLimit.RestartWindow.Exceeds` | internal/engine/supervisor.go:386-400 | The check answers as the specification and leaves the window the specification leaves |
| `Backoff.BaseIsMonotone` | internal/engine/backoff.go:18-22 | The backoff base never shrinks with the attempt number |
| `Backoff.BaseStartsAtTheMinimum` | internal/engine/backoff.go:18-22 | The first delay is the minimum |
| `Backoff.BaseMultiplies` | internal/engine/backoff.go:18-22 | Each further one is the one before it times the factor, or the maximum if that is smaller |
| `Backoff.DelayIsTheBaseWithJitter` | internal/engine/backoff.go:18-26 | Without jitter the delay is that base in whole milliseconds; with it, that and the drawn part of a tenth of it |
| `Backoff.DelayWithinBounds` | internal/engine/backoff.go:18-26 | Every delay lies between the minimum and 1.1 times the maximum |
| `Backoff.CapIsReached` | internal/engine/backoff.go:18-22 | With a growing factor the cap is reached after at most ceil((max/min - 1)/(factor - 1)) failures |
| `Backoff.PowGrowsAtLeastLinearly` | internal/engine/backoff.go:19 | Bernoulli's inequality, which that bound rests on |
| `Supervisor.TunnelSupervisor.RunLoop` | internal/engine/supervisor.go:100-294 | For any number of turns the loop takes only steps of the machine; what it opened and closed is well nested, and when it has returned nothing is open |
| `Supervisor.TunnelSupervisor.Turn` | internal/engine/supervisor.go:109-293 | One round of the loop, with every early return |
| `Supervisor.TunnelSupervisor.BuildChain` | internal/ssh/chain.go:44-120 | Hop by hop, the clients opened so far are kept in order, and the channels list the hops that run a keepalive; on any failure all clients are closed again, last first |
| `Supervisor.TunnelSupervisor.GiveUpChain` | internal/ssh/chain.go:65-104 | The unwinding of a failed chain, including the half-made connection |
| `Supervisor.TunnelSupervisor.CloseClients` | internal/ssh/chain.go:30-41 | Clients are closed from the last to the first |
| `Supervisor.TunnelSupervisor.StartForwards` | internal/engine/supervisor.go:296-336 | Forwarders start in order; the first failure stops those that started, last first |
| `Supervisor.TunnelSupervisor.WaitForError` | internal/engine/supervisor.go:338-366 | Waiting ends with the failure of a channel, which carries its number and the hop behind it, or with cancellation |
| `Supervisor.TunnelSupervisor.CleanUp` | internal/engine/supervisor.go:368-384 | Forwarders stop last first, before clients close last first |
| `Supervisor.TunnelSupervisor.RateLimitExceeded` | internal/engine/supervisor.go:386-400 | The limiter inside the loop, on its own list |
| `Supervisor.TunnelSupervisor.BackoffSleep` | internal/engine/supervisor.go:402-417 | A delay for the attempt in hand, then on, or Stopped if cancelled first |
| `Supervisor.TunnelSupervisor.StopEnter` | internal/engine/supervisor.go:73-83 | The first critical section of Stop: nothing when stopped or stopping, else Stopping and cancelled |
| `Supervisor.TunnelSupervisor.StopFinish` | internal/engine/supervisor.go:91-97 | The last critical section of Stop, after the loop returned |
| `ConfigRequests.RequestKeepsConsistent` | internal/api/handler_tunnel.go:34-242 | From a consistent configuration every request, accepted or refused, saved or not, leads to a consistent one |
| `ConfigEffects.EditsTakeEffect` | internal/api/handler_tunnel.go:34-242 | Every create, update and patch of a tunnel or connection, told field by field: it is accepted exactly when what it is about is there, what it asks for is consistent and the disk takes it; then in memory and on disk each field it brought is as brought, with a default only where it was empty or zero, each field it did not bring is kept, the entity stands under its id, and everything else is as before; the other answers say what was amiss |
| `ConfigEffects.DeletionsTakeEffect` | internal/api/handler_ssh.go:131-168 | Every deletion: refused exactly when there is nothing to delete, or when tunnels go through the connection, whose names are given in order; otherwise none with that id is left, nothing else has changed, and the disk follows if it takes the write |
| `ConfigEffects.IdsAreDrawnOnce` | internal/api/handler_tunnel.go:40-46 | A request takes as many new ids as it creates entities and brings mappings without one, so none is given twice |
| `ConfigRequests.EveryRunStaysConsistent` | internal/api/handler_ssh.go:24-292 | The same over any sequence of requests and any behaviour of the disk |
| `ConfigRequests.RequestKeepsDefaults` | internal/api/handler_tunnel.go:34-242 | Every request keeps the stored mappings filled in, and a normal configuration normal |
| `ConfigRequests.EveryRunKeepsDefaults` | internal/api/handler_ssh.go:24-292 | The same over any sequence of requests and any behaviour of the disk |
| `ConfigRequests.StartingPoints` | internal/config/store.go:35-66 | A fresh installation is consistent with its mappings filled in, and so is every consistent configuration that has been loaded |
| `ConfigRequests.EveryTunnelResolves` | internal/engine/engine.go:48-64 | At any time in any run from a consistent configuration no tunnel has an unknown hop, and its chain resolves, to connections with the chain's ids, pointwise |
| `ConfigRequests.ConnectionRequestKeepsConsistent` | internal/api/handler_ssh.go:24-292 | The part about SSH connections; deleting one keeps all chains known because referenced ones are refused |
| `ConfigRequests.RefusedRequestsChangeNothing` | internal/api/handler_tunnel.go:197-238 | A refused create, update or patch leaves the disk alone, and the configuration as it was exactly unless it is a patch without mappings of a tunnel whose stored mappings lack a default |
| `ConfigRequests.TidyConfigurationsRollBack` | internal/api/handler_tunnel.go:119-130 | Where no stored mapping lacks its default, a refusal changes nothing at all |
| `ConfigRequests.DiskFollowsMemory` | internal/api/server.go:101-110 | Disk and memory agree after a request exactly when it was not a deletion that could not be saved |
| `ConfigRequests.DiskFollowsMemoryThroughout` | internal/api/server.go:101-110 | Over a run in which deletions are saved, the disk ends up with exactly what is in memory |
| `ConfigRequests.DeletionsOnDisk` | internal/api/handler_tunnel.go:153-161 | A deletion is not taken back: if it cannot be saved, memory and disk part |
| `ConfigRequests.TheValidatorIsSound` | internal/config/validate.go:211-245 | The validator used by the requests is silent exactly on consistent configurations |
| `ConfigServer.Server.CreateTunnel` | internal/api/handler_tunnel.go:34-68 | New ids, defaults, append, validate and save, cut back on failure: the state and answer are those of the specification |
| `ConfigServer.Server.UpdateTunnel` | internal/api/handler_tunnel.go:85-133 | The whole new state and answer of a replacement, with its rollback |
| `ConfigServer.Server.PatchTunnel` | internal/api/handler_tunnel.go:173-242 | The whole new state and answer of a patch whose candidate shares the stored mappings array, defaults being written through it; where no stored mapping lacks its default, nobody who shares a stored array can see that |
| `ConfigServer.Server.ApplyPatch` | internal/api/handler_tunnel.go:197-222 | The candidate of a patch shares the stored array exactly when the patch has no mappings |
| `ConfigServer.Server.ReplaceTunnel` | internal/api/handler_tunnel.go:116-130 | Overwrite, validate, save; put the old tunnel back if that fails |
| `ConfigServer.Server.DeleteTunnel` | internal/api/handler_tunnel.go:135-162 | The whole new state and answer of a deletion, which is not taken back |
| `ConfigServer.Server.CreateConnection` | internal/api/handler_ssh.go:24-53 | As for tunnels |
| `ConfigServer.Server.UpdateConnection` | internal/api/handler_ssh.go:86-129 | As for tunnels |
| `ConfigServer.Server.PatchConnection` | internal/api/handler_ssh.go:229-292 | As for tunnels |
| `ConfigServer.Server.DeleteConnection` | internal/api/handler_ssh.go:131-168 | Refused with the names of the tunnels that go through it; otherwise removed for good |
| `ConfigServer.Server.SaveConfig` | internal/api/server.go:101-110 | Nothing inconsistent is written |
| `ConfigServer.Server.AssignIds` | internal/api/handler_tunnel.go:94-98 | Mappings without an id get new ones in order, in place |
| `ConfigValidate.NoProblemsMeansConsistent` | internal/config/validate.go:211-245 | The validator reports nothing exactly when ids are unique and present, every entity is complete and every chain refers to connections there are |
| `ConfigValidate.ValidateConfig` | internal/config/validate.go:211-245 | The loops with their sets of ids seen report exactly the specified problems in order, none exactly on consistent configurations |
| `ConfigValidate.ValidateTunnel` | internal/config/validate.go:150-208 | A tunnel's problems, in order |
| `ConfigValidate.ValidateMappings` | internal/config/validate.go:174-191 | Mapping ids are unique within a tunnel, and each mapping is checked for the tunnel's mode |
| `ConfigValidate.ValidateMapping` | internal/config/validate.go:97-147 | A mapping's problems for each mode |
| `ConfigValidate.ValidateSSHConnection` | internal/config/validate.go:38-94 | A connection's problems, in order |
| `ConfigValidate.TunnelProblemsMean` | internal/config/validate.go:150-208 | No problem is reported for a tunnel exactly when it is complete |
| `ConfigValidate.FindSSHConnectionReferences` | internal/config/validate.go:248-259 | The names of exactly the tunnels whose chain has the id |
| `ConfigValidate.NoReferences` | internal/config/validate.go:248-259 | There are none exactly when no chain has the id |
| `ConfigEffects.ReferencesAreNames` | internal/config/validate.go:248-259 | They are the names of just the tunnels whose chain has it, once each and in order |
| `ConfigDefaults.DefaultsSettle` | internal/config/defaults.go:55-74 | The defaults leave a configuration alone exactly when it is normal, make every configuration normal, and are idempotent |
| `ConfigDefaults.PolicyDefaultsSettle` | internal/config/defaults.go:31-51 | The same for a restart policy |
| `ConfigDefaults.ApplyTunnelDefaults` | internal/config/defaults.go:27-52 | The policy is the copy's own; the mappings are written in the array it points to |
| `ConfigDefaults.ApplySSHConnectionDefaults` | internal/config/defaults.go:4-17 | A connection with its defaults |
| `ConfigDefaults.ApplyPolicyDefaults` | internal/config/defaults.go:31-51 | A policy with its defaults, automatic restart being switched on only where no backoff was given |
| `ConfigCipher.RoundTrip` | internal/config/crypto.go:78-188 | Decrypting what was encrypted restores every field at every level exactly when no secret starts with the marker (or nothing is encrypted) |
| `ConfigCipher.FieldRoundTrip` | internal/config/crypto.go:166-188 | The same for one field |
| `ConfigCipher.EncryptionIsIdempotent` | internal/config/crypto.go:166-175 | An encryption of an encrypted configuration is that configuration |
| `ConfigCipher.PlaintextDecryptsToItself` | internal/config/crypto.go:178-188 | A configuration in plain text is its own and only decryption |
| `ConfigCipher.DecryptionIsUnique` | internal/config/crypto.go:111-132 | There is one decryption at most |
| `ConfigCipher.NothingInPlainText` | internal/config/crypto.go:134-188 | Under a real cipher every password, private key, passphrase and proxy password of the copy is empty or behind the marker |
| `ConfigCrypto.Encryptor.EncryptConfig` | internal/config/crypto.go:76-109 | The result encrypts what the configuration said; its arrays, keys and proxy settings are all new, nothing that existed but the encryptor is written, and it fails exactly when a nonce it draws cannot be had |
| `ConfigCrypto.Encryptor.EncryptAuth` | internal/config/crypto.go:134-149 | The password is rewritten in the copy, the key in a copy of the key; it fails exactly when a nonce it draws cannot be had |
| `ConfigCrypto.Encryptor.EncryptTunnel` | internal/config/crypto.go:92-105 | A tunnel gets mappings and proxy settings of its own; the other tunnels keep theirs; it fails exactly when a nonce it draws cannot be had |
| `ConfigCrypto.Encryptor.DecryptConfig` | internal/config/crypto.go:111-132 | In place, the objects come to say the decryption of what they said; it fails only on a secret that cannot be decrypted |
| `ConfigCrypto.Encryptor.DecryptAuth` | internal/config/crypto.go:151-164 | The same for one connection, through its key's pointer |
| `ConfigStore.SaveThenLoad` | internal/config/store.go:35-66 | A saved configuration is loaded as its defaults exactly when none of its secrets starts with the marker, and as itself exactly when it is normal besides |
| `ConfigStore.ReloadIsTheSame` | internal/config/store.go:35-66 | Without marked secrets it is loaded as its defaults only; a normal configuration is its own defaults |
| `ConfigStore.LoadIsUnique` | internal/config/store.go:35-66 | A file is never loaded as two different things |
| `ConfigLoading.LoadedExactly` | internal/config/store.go:35-90 | A file is loaded as its decryption with every field kept that was given, the default where one was empty or zero, and those tunnels starting automatically that did or were enabled in the old format; and as nothing else |
| `ConfigStore.FileStore.Load` | internal/config/store.go:35-66 | Decrypt, migrate and fill in defaults on new objects; no file is an empty configuration; it fails only on a secret that cannot be decrypted |
| `ConfigStore.FileStore.Save` | internal/config/store.go:93-136 | It succeeds exactly when the disk takes the write and every nonce can be drawn; then an encryption of what the objects say replaces the file, otherwise the file stays as it was |
| `ConfigStore.MigrateEnabledToAutoStart` | internal/config/store.go:70-90 | Exactly the tunnels that start automatically or were enabled in the old format start automatically |
| `ConfigStore.ApplyConfigDefaults` | internal/config/defaults.go:55-74 | In place, the objects come to say the defaults of what they said |
| `ConfigRestart.RestartRestoresTheConfiguration` | internal/config/store.go:35-66 | After any run of requests, from a fresh installation too, a restart from the encrypted file brings back the configuration in use with its defaults filled in, and nothing else, exactly when no secret starts with the marker |
| `ConfigRestart.LaterRestartsChangeNothing` | internal/config/store.go:35-66 | A server started from a normal configuration has after any run one that is its own defaults, so that a restart brings back just that |
| `Startup.Start` | cmd/tunnel-server/main.go:67-77 | The server that is started serves what the file says, or a fresh configuration without one, and the file is now an encryption of just that; it fails only on an unreadable secret, a failed write or a nonce that cannot be had |
| `Startup.StartedAgain` | cmd/tunnel-server/main.go:67-77 | Started again from the file of one that served any run of requests, a server serves what that one did with its defaults filled in, and nothing else, exactly when no secret starts with the marker |
| `ConfigServer.TunnelRefs` | internal/config/store.go:35-66 | Every tunnel of a loaded configuration has mappings in memory of its own |
| `Engine.ResolveChain` | internal/engine/engine.go:48-64 | The first connection with each id, in chain order; or the first id that has none |
| `Engine.ChainsResolve` | internal/engine/engine.go:48-64 | In a consistent configuration every chain resolves, and only to connections with the chain's own ids |
| `Engine.Engine.GetOrCreateSupervisor` | internal/engine/engine.go:66-77 | A supervisor there is is used as it is; otherwise one is made from the configuration now |
| `Engine.Engine.StartTunnel` | internal/engine/engine.go:79-91 | What runs is the kept supervisor if there is one, else one made now |
| `Engine.Engine.StopTunnel` | internal/engine/engine.go:93-103 | The supervisor is forgotten, and no other |
| `Engine.Engine.RestartTunnel` | internal/engine/engine.go:105-121 | What runs is made from the configuration as it is now |
| `Engine.KeptIsCurrentExactlyWhenUntouched` | internal/engine/engine.go:66-69 | A supervisor made from one configuration is one that another would make exactly when the tunnel and the connections its chain names read the same in both; an edit that is taken back leaves it so |
| `EngineEdits.KeptStaysCurrent` | internal/engine/engine.go:66-91 | Over any run of requests, and whatever the disk does, a kept supervisor runs what one made now would, so long as every request about its tunnel or a connection of its chain was turned down |
| `Events.DeliveryIsOrderedAndKeepsTheFirstEvents` | internal/engine/events.go:54-94 | What was read plus what waits is an ordered selection of the history at subscription and the later events, and has the history and the first bufSize later events whole |
| `Events.ExactUntilTheBacklogIsFull` | internal/engine/events.go:63-68 | Delivery is exact if and only if no event met a full queue |
| `Events.LengthsOfARun` | internal/engine/events.go:63-68 | Every loss leaves the delivered stream short for good |
| `Events.BusRemembersTheLast` | internal/engine/events.go:58-62 | Over every run, what the bus remembers is the last 200 of all events published |
| `Events.EventsArriveAsPublished` | internal/engine/events.go:54-57 | Over every run events arrive in order and as they were published, and those without a time get the one of their publication |
| `Events.FeedsAreIndependent` | internal/engine/events.go:54-94 | What a subscriber was offered, has read and has waiting depends on the publishes and its own reads only, whatever the other subscribers do |
| `Events.EverySubscriberIsServed` | internal/engine/events.go:54-94 | Over every run of publishes, subscriptions, reads and cancellations: each subscriber gets an ordered selection of the history it found and all events since, that history and as many later events as it asked room for whole, and all of them exactly when none met its own full queue |
| `Events.SubscribedAt` | internal/engine/events.go:73-93 | Those on the bus are those whose subscription was not cancelled |
| `Events.EventBus.Publish` | internal/engine/events.go:54-70 | The bus and the queues of all subscribers move as the machine does, and nobody is waited for |
| `Events.EventBus.Subscribe` | internal/engine/events.go:73-84 | The history goes into the new queue, which never blocks; the bus moves as the machine does |
| `Events.EventBus.Cancel` | internal/engine/events.go:85-93 | The subscriber is gone, drained and closed; the others are as they were, as the machine has it |
| `EventSocket.NothingIsLostInFlight` | internal/api/ws.go:21-46 | While nothing was dropped, received, in flight and queued together are the history at subscription and everything since |
| `EventSocket.ReplicaAgreesWhenCaughtUp` | ui/src/lib/ws.ts:32-43 | A browser that has caught up shows the bus's history, also after a loss once 200 more events were accepted |
| `EventSocket.Socket.OnMessage` | ui/src/lib/ws.ts:32-43 | The buffer is the last 200 of what it was and the new event, and every listener is called once |
| `EventSocket.Socket.OnEvent` | ui/src/lib/ws.ts:58-62 | A new listener is told the whole buffer in order |
| `EventSocket.Socket.Unsubscribe` | ui/src/lib/ws.ts:63 | The function that registering returns takes the listener off the list, and nothing else |
| `EventSocket.Socket.OnClose` | ui/src/lib/ws.ts:45-51 | A reconnect is scheduled unless closed, and the delay doubles up to eight seconds |
| `EventSocket.Socket.OnTimer` | ui/src/lib/ws.ts:47-49 | The reconnect that was due is a new connection, with an empty buffer |
| `EventSocket.Socket.Connect` | ui/src/lib/ws.ts:21-30 | A connection starts with an empty buffer |
| `EventSocket.Socket.OnOpen` | ui/src/lib/ws.ts:28-30 | A connection that opens resets the reconnect delay to a second |
| `EventSocket.Socket.CloseSocket` | ui/src/lib/ws.ts:66-70 | A reconnect that is due is called off, and a later loss of the connection schedules none |
| `TrafficStore.ExtractAfterMake` | internal/traffic/store.go:133-148 | The second written into a key is read back |
| `TrafficStore.KeysAreInjective` | internal/traffic/store.go:132-140 | Different tunnels or seconds have different keys |
| `TrafficStore.TotalsRoundTrip` | internal/traffic/store.go:150-167 | The three counters survive encoding over the whole int64 range |
| `Bytes.Int64RoundTrip` | internal/traffic/store.go:150-167 | Eight big-endian bytes carry every int64, negative ones included |
| `TrafficStore.MakeKey` | internal/traffic/store.go:133-140 | The filled buffer is the specified key |
| `TrafficStore.EncodeValue` | internal/traffic/store.go:151-157 | The filled buffer is the specified value |
| `TrafficQuery.QueryConserves` | internal/traffic/store.go:58-113 | With steps of at least a second, no bucket is lost and the grand total is that of the entries in range |
| `TrafficQuery.ExactlyWhenStepsConserve` | internal/traffic/store.go:89-111 | A step conserves traffic for every log and window exactly when it is at least a second |
| `TrafficQuery.SubSecondStepsCountTwice` | internal/traffic/store.go:93-105 | For every smaller step, every tunnel and every instant there is a later second, at most that many seconds on as the step has nanoseconds, at which one recorded entry is counted twice |
| `TrafficQuery.GridIsGapFree` | internal/traffic/store.go:104-111 | The samples stand at consecutive multiples of the step from the first up to the end of the window |
| `TrafficQuery.QueriesCompose` | internal/traffic/store.go:58-113 | Queries meeting at an aligned instant join up exactly when both halves have entries or neither has |
| `TrafficQuery.PruneIsInvisibleAfterTheCutoff` | internal/traffic/store.go:116-130 | Pruning changes no query that starts at or after the cutoff |
| `TrafficQuery.BucketsAreIntervals` | internal/traffic/store.go:89-100 | With steps of a second or more, the entries a grid point labels are exactly those of the interval that starts there |
| `TrafficQuery.SamplesAreTheirIntervals` | internal/traffic/store.go:58-113 | With such steps the answer is the one list of consecutive intervals, each with the sum of exactly its own entries, and nothing else is |
| `TrafficQuery.Store.Query` | internal/traffic/store.go:58-113 | Collect, aggregate and fill compute the specified totals; with steps of a second or more, those of consecutive intervals |
| `TrafficQuery.Store.Aggregate` | internal/traffic/store.go:90-100 | Each bucket holds exactly the sum of the entries of its second |
| `TrafficQuery.Store.Fill` | internal/traffic/store.go:103-111 | The fill loop ends, and gives every grid point its bucket |
| `TrafficQuery.Store.Prune` | internal/traffic/store.go:116-130 | Exactly the entries before the cutoff are deleted |
| `TrafficQuery.Store.Record` | internal/traffic/store.go:48-55 | One entry is written under the tunnel and second |
| `TrafficSampler.Sampler.Sample` | internal/engine/traffic.go:82-122 | The new snapshot, the deltas with their reset rule, the totals, and the last samples kept |
| `TrafficSampler.Sampler.Flush` | internal/engine/traffic.go:124-149 | What is written and what is remembered, tunnel by tunnel |
| `TrafficSampler.Sampler.GetRealtime` | internal/engine/traffic.go:152-158 | A copy of the samples |
| `TrafficEndToEnd.DeltasTelescope` | internal/engine/traffic.go:95-104 | For every counter history the deltas add up to the ends of its maximal non-decreasing runs |
| `TrafficEndToEnd.TotalsAreTheShares` | internal/engine/traffic.go:95-112 | The totals of a sample are what its tunnels contribute |
| `TrafficEndToEnd.WritesTellTheSnapshot` | internal/engine/traffic.go:133-147 | Each write of a flush is about another tunnel of the snapshot, in order, with that tunnel's id and number of mappings and the time and outcome of that call |
| `TrafficEndToEnd.SamplesReportRunEnds` | internal/engine/traffic.go:82-122 | The same for what sampling reports, where a missing tunnel ends a run |
| `TrafficEndToEnd.FlushesWriteRunEnds` | internal/engine/traffic.go:124-149 | The same for what flushing writes, where it does not |
| `TrafficEndToEnd.FlushingNeverOverReportsSampling` | internal/engine/traffic.go:62-80 | Flushing at some of the moments at which a sampler samples never writes more for a tunnel than that one reports, for every run with any resets and gaps |
| `TrafficEndToEnd.CoarseNeverOverReports` | internal/engine/traffic.go:95-104 | The reason: of two looks at one counter history, the one that skips moments has no larger sum of deltas |
| `TrafficEndToEnd.FlushingIsExactWithoutResets` | internal/engine/traffic.go:62-80 | For a tunnel that is always there and whose counter never falls, flushing that ends with the last sample writes exactly what sampling reports |
| `TrafficEndToEnd.QueryReportsRecordedLessReplaced` | internal/traffic/store.go:48-113 | A covering query reports what accepted writes recorded, less what a write in the same tunnel and second replaced |
| `TrafficEndToEnd.QueryReportsWhatWasRecorded` | internal/traffic/store.go:48-113 | With distinct seconds per tunnel it reports all of it |
| `TrafficEndToEnd.QueryReportsRunEnds` | internal/engine/traffic.go:124-149 | End to end, a query over a run of flushes reports the ends of the runs of all counters |
| `Socks5.ServedExactlyWhenWellFormed` | internal/forward/dynamic.go:131-179 | A connection is handed over with a request and unread bytes exactly when the client sent a fitting offer, the right login and that request, followed by those bytes; until then it was sent the greeting and nothing else |
| `Socks5Answers.EveryClientIsAnswered` | internal/forward/dynamic.go:156-291 | Byte for byte: no offer, nothing; no acceptable method, 05 FF; no login, 05 02; a wrong one, 05 02 01 01; no request, the welcome (05 00, or 05 02 01 00); another command, the welcome and a reply with code 7; a request to connect or bind, the welcome and the hand-over |
| `Socks5Answers.EveryClientBehaves` | internal/forward/dynamic.go:156-291 | And every client does one of these |
| `Socks5Answers.WrongLoginIsToldSo` | internal/forward/dynamic.go:283-285 | A wrong user or password is answered with a failure |
| `Socks5Answers.OtherCommandsAreRefused` | internal/forward/dynamic.go:168-179 | A request for anything else than connect and bind is answered with code 7 |
| `Socks5.NegotiateExact` | internal/forward/dynamic.go:253-291 | Negotiation succeeds exactly on an offer of the required method and the right login, consuming just these |
| `Socks5.MethodsExact` | internal/forward/socks5.go:37-54 | The methods read and the rest left are those of section 3 of RFC 1928, both directions |
| `Socks5.UserPassExact` | internal/forward/socks5.go:63-91 | The same for section 2 of RFC 1929 |
| `Socks5.RequestExact` | internal/forward/socks5.go:117-165 | The same for section 4 of RFC 1928, up to IPv4-mapped addresses |
| `Socks5.StrictPrefixesAreRejected` | internal/forward/dynamic.go:156-179 | No strict prefix of what a served client sent is served |
| `Socks5.MessagePrefixesAreRejected` | internal/forward/socks5.go:37-165 | No strict prefix of a message is read as that kind of message |
| `Socks5.ReplyInverse` | internal/forward/socks5.go:168-197 | Reading a reply as a request recovers its code, address and port exactly when the bound address has a size addresses have |
| `Dynamic.BufferedConn.Peek` | internal/forward/dynamic.go:131-139 | Looking at the first byte takes nothing |
| `Dynamic.BufferedConn.ReadFull` | internal/forward/dynamic.go:154 | However the bytes arrive, exactly the next n are read, or all there are and a failure |
| `Dynamic.BufferedConn.ReadMethodSelection` | internal/forward/socks5.go:37-54 | What is returned and left is as specified |
| `Dynamic.BufferedConn.ReadUsernamePassword` | internal/forward/socks5.go:63-91 | What is returned and left is as specified |
| `Dynamic.BufferedConn.ReadRequest` | internal/forward/socks5.go:117-165 | What is returned and left is as specified |
| `Dynamic.BufferedConn.WriteReply` | internal/forward/socks5.go:168-197 | The bytes written are the specified reply |
| `Dynamic.DynamicForwarder.Negotiate` | internal/forward/dynamic.go:253-291 | What is sent, left and decided is as specified |
| `Dynamic.DynamicForwarder.HandleSocks5` | internal/forward/dynamic.go:156-179 | The whole handshake, up to the hand-over |
| `Dynamic.DynamicForwarder.HandleConn` | internal/forward/dynamic.go:124-146 | An empty connection is closed; a first byte other than 5 goes to the HTTP side with nothing taken; otherwise the handshake runs on the untouched stream |
| `HostKeys.TrustChangesOnlyLegitimately` | internal/ssh/hostkey.go:259-319 | Over every run a trusted key changes only by first contact in acceptNew, by confirmation, with its fingerprint, of the key of the last handshake rejected since, or by revocation; and each of these does change it |
| `HostKeys.PendingIsTheLastRejected` | internal/ssh/hostkey.go:298-319 | What is pending, and what is trusted, is what the calls about the host alone say: pending is exactly the key of the last handshake rejected for it since its last trust or revocation |
| `HostKeys.AcceptedExactlyWhen` | internal/ssh/hostkey.go:259-294 | Over every run a handshake is accepted exactly when its mode is insecure, or it presents the trusted key in a mode that verifies, or it is a first contact in acceptNew that could be saved; every other one is rejected, in an unrecognised mode too |
| `HostKeys.ConfirmedExactlyWhen` | internal/api/handler_hostkey.go:32-78 | Over every run a confirmation succeeds exactly when it gives the fingerprint of the key on hold and that could be saved, and each refusal has its own reason |
| `HostKeys.RevokedExactlyWhen` | internal/api/handler_hostkey.go:81-97 | Over every run a revocation succeeds exactly when there was nothing to forget or that could be saved |
| `HostKeys.NoKeyIsInjected` | internal/api/handler_hostkey.go:29-71 | Every key that is ever pending or trusted was trusted from the start or offered by that host |
| `HostKeys.SameKeyBetweenChanges` | internal/ssh/hostkey.go:264-286 | All verified handshakes between two changes present the same key |
| `HostKeys.HostKeyVerifier.Verify` | internal/ssh/hostkey.go:259-294 | The verdict and the store after one handshake, for every mode; an unknown mode rejects |
| `HostKeys.HostKeyVerifier.Record` | internal/ssh/hostkey.go:298-319 | The offered key becomes pending and the mismatch is kept |
| `HostKeys.TrustHostKey` | internal/api/handler_hostkey.go:32-78 | The answer and the store after a confirmation |
| `HostKeys.RevokeHostKey` | internal/api/handler_hostkey.go:81-97 | The answer and the store after a revocation |
| `HostKeys.HostKeyStore.Add` | internal/ssh/hostkey.go:130-135 | The key is trusted in memory even when the file cannot be written, which is reported |
| `Sessions.ValidityRefines` | internal/api/session.go:124-136 | A token is valid exactly when it was created, not deleted since and not expired, whatever checks, sweeps and restarts happened |
| `Sessions.FileKeepsTheLiveSessions` | internal/api/session.go:79-105 | With writes accepted, the live sessions of the file are those of memory, and a restart brings back just these |
| `Sessions.HousekeepingIsInvisible` | internal/api/session.go:147-161 | Checks, sweeps and restarts change no later answer |
| `Sessions.SessionStore.IsValid` | internal/api/session.go:124-136 | The answer, and the deletion of what expired |
| `Sessions.SessionStore.Cleanup` | internal/api/session.go:147-161 | Exactly the live sessions stay |
| `Sessions.SessionStore.Load` | internal/api/session.go:51-74 | Exactly the live sessions of the file are loaded |
| `Sessions.SessionStore.Create` | internal/api/session.go:109-122 | A new session under a new token, written to the file |
| `Sessions.SessionStore.Delete` | internal/api/session.go:138-145 | The session is gone, and the file rewritten if there was one |
| `Sessions.SessionStore.PersistLocked` | internal/api/session.go:79-105 | The file lists the sessions of memory, each once; without a path, or when the write fails, it stays as it was |

## Left out

- Two loops in one supervisor: Start refuses only Running and Starting, so it can launch a second loop beside one that sleeps. The machine has one loop from one Start.
- Supervisor.TunnelSupervisor.RunLoop: takes at most a given number of turns and may leave the loop parked, because a loop has to end here; the theorems about the machine are about runs of any length.
- The supervisor's byte totals across forwarder restarts, and the status they feed, which counts a snapshot twice for a moment.
- Contexts and timeouts of dials, the keepalive loop inside a hop and its cancellation; a keepalive is a channel that may report a failure.
- Errors of closing connections, which the source ignores too.
- Messages of events and errors, the extra fields of an event, and a listener that throws.
- An event that cannot be marshalled, which is skipped on the way to the browser; every modelled event can.
- TrafficSampler.Sampler.Sample: does not model wrap-around of int64 totals; the sums are unbounded.
- TrafficQuery.Store.Query: does not model wrap-around of int64 sums within a bucket.
- TrafficQuery.Store.Record: the time of the write is a parameter.
- Backoff.DelayWithinBounds: the factor and the jitter are reals, so rounding of floating point is not modelled.
- ConfigValidate.ValidateConfig: does not model the warning about an open proxy without login, which blocks nothing, nor the wording of messages.
- A request body that does not decode is refused before anything else happens, and is not modelled.
- Settings requests, which are not all or nothing in the source.
- Engine.KeptIsCurrentExactlyWhenUntouched: takes the kept tunnel as a value, although it shares its mappings with the stored one; ConfigServer.Server.PatchTunnel proves that no write through them can be seen while stored mappings have their defaults, which every request keeps so.
- Concurrency of requests: the server holds one lock while it edits the configuration.
- ConfigServer.Server.CreateConnection: keys and proxy settings are values there, because no handler writes through those pointers; in the encryption they are objects.
- ConfigStore.FileStore.Load: a file that cannot be read or parsed is not modelled.
- ConfigStore.FileStore.Save: temporary files, syncing and renaming are one step that happens or not; concurrent readers are not modelled.
- ConfigCrypto.Encryptor.DecryptConfig: asks that no object is shared within the configuration, as is the case for one that was just parsed. After a failure the half-decrypted configuration is discarded and nothing is said about it.
- AES-GCM, key derivation, base64 and JSON themselves.
- Dynamic.DynamicForwarder.HandleConn: ends at the hand-over; the HTTP CONNECT side, dialling, listening for BIND, access lists and the relay are not modelled, and writes to the client do not fail.
- Socks5.RequestExact: an IP address is its bytes, an IPv4-mapped one the four bytes it stands for; the text it is printed as is not modelled.
- HostKeys.HostKeyVerifier.Verify: looking a key up and adding it is one step, although the source locks twice.
- Sessions.SessionStore.IsValid: checking and deleting is one step, although the source locks twice.
- Starting, stopping and listing of all tunnels at once, and what a supervisor answers when it is started: that answer is a parameter.
- The web interface, tray, autostart, translations, redaction, password hashing and the release check.
