/** Starting a server: load the configuration, write it back, and serve it. */
module Startup {
  import opened Prelude
  import opened ConfigModel
  import opened ConfigDefaults
  import opened ConfigValidate
  import opened ConfigRequests
  import opened ConfigCipher
  import ConfigCrypto
  import opened ConfigStore
  import opened ConfigServer
  import opened ConfigRestart

  /** What is served is what the file says, or a fresh configuration if there is none. */
  ghost predicate Serves(c: Cipher, file: Option<Document>, v: Config) {
    if file.None? then v == NewConfig() else Loads(c, file.value, v)
  }

  /** The file is an encryption of this configuration. */
  ghost predicate Encloses(c: Cipher, file: Option<Document>, v: Config) {
    exists e :: Encrypts(c, v, e) && file == Some(Written(e))
  }

  method Start(store: FileStore, env: Env, writeOk: bool) returns (r: Option<Server>)
    requires Validates(env.check)
    modifies store`file, store.enc
    ensures r.Some? ==>
              && fresh(r.value) && r.value.Valid() && r.value.env == env
              && r.value.State() == State(r.value.Value(), r.value.Value(), 0)
              && Serves(store.enc.cipher, old(store.file), r.value.Value())
              && Encloses(store.enc.cipher, store.file, r.value.Value())
              && (Good(r.value.Value()) <==> Consistent(r.value.Value()))
    ensures r.None? ==>
              && store.file == old(store.file)
              && (|| (store.file.Some? && !Keeps(Decryptable(store.enc.cipher), store.file.value.config))
                  || !writeOk || store.enc.FailsIn(old(store.enc.calls), store.enc.calls))
  {
    var cfg := store.Load();
    if cfg.None? {
      return None;
    }
    var v := ConfigCrypto.ValueOf(cfg.value);
    var saved := store.Save(cfg.value, writeOk);
    if !saved {
      return None;
    }
    StartsGood(store.enc.cipher, old(store.file), v);
    var server := new Server(v, env);
    r := Some(server);
  }

  /**
   The server that is started again from the file of one that served any run of
   requests serves what that one did, with its defaults filled in, and nothing
   else, exactly when no secret looks encrypted (or nothing is encrypted).
   */
  lemma StartedAgain(v: Config, es: seq<Event>, env: Env, c: Cipher, file: Option<Document>)
    requires Good(v) && Sound(env.check) && c.Lawful()
    requires forall i :: 0 <= i < |es| && Deletes(es[i].request) ==> es[i].saveOk
    requires Encloses(c, file, Run(State(v, v, 0), es, env).disk)
    ensures var now := Run(State(v, v, 0), es, env).config;
            (forall w :: Serves(c, file, w) <==> w == Defaults(now)) <==> c.Nop? || Unmarked(now)
  {
    var e :| Encrypts(c, Run(State(v, v, 0), es, env).disk, e) && file == Some(Written(e));
    RestartRestoresTheConfiguration(State(v, v, 0), es, env, c, e);
    forall w ensures Serves(c, file, w) <==> Loads(c, Written(e), w) {
    }
  }

  lemma StartsGood(c: Cipher, file: Option<Document>, v: Config)
    requires Serves(c, file, v)
    ensures Good(v) <==> Consistent(v)
  {
    if file.None? {
      StartingPoints(v);
    } else {
      var d :| LoadsVia(c, file.value, d, v);
      StartingPoints(Migrated(d, file.value.enabled));
    }
  }
}
