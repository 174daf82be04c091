/** What the edits, the validator, the cipher and the file amount to together. */
module ConfigRestart {
  import opened ConfigModel
  import opened ConfigDefaults
  import opened ConfigRequests
  import opened ConfigCipher
  import opened ConfigStore

  /**
   After any sequence of requests, from a fresh installation or any consistent
   configuration, a restart from the encrypted file brings back the
   configuration that was in use with the defaults filled in, and nothing else,
   exactly when none of its secrets looks encrypted (or nothing is encrypted):
   provided the disk took every deletion.
   */
  lemma RestartRestoresTheConfiguration(s: State, es: seq<Event>, env: Env, c: Cipher, e: Config)
    requires Good(s.config) && Sound(env.check) && s.disk == s.config
    requires forall i :: 0 <= i < |es| && Deletes(es[i].request) ==> es[i].saveOk
    requires c.Lawful() && Encrypts(c, Run(s, es, env).disk, e)
    ensures var now := Run(s, es, env).config;
            (forall w :: Loads(c, Written(e), w) <==> w == Defaults(now)) <==> c.Nop? || Unmarked(now)
  {
    var now := Run(s, es, env).config;
    DiskFollowsMemoryThroughout(s, es, env);
    SaveThenLoad(c, now, e);
    if c.Nop? || Unmarked(now) {
      forall w ensures Loads(c, Written(e), w) <==> w == Defaults(now) {
        ReloadIsTheSame(c, now, e, w);
      }
    }
  }

  /** A server that was itself started from a file has its defaults filled in, and gets back just what it had. */
  lemma LaterRestartsChangeNothing(s: State, es: seq<Event>, env: Env)
    requires Normal(s.config)
    ensures Defaults(Run(s, es, env).config) == Run(s, es, env).config
  {
    EveryRunKeepsDefaults(s, es, env);
    DefaultsSettle(Run(s, es, env).config);
  }
}
