/** Encryption of the secrets of a configuration: what it does to each field, and that it can be undone. */
module ConfigCipher {
  import opened Prelude
  import opened ConfigModel

  const ENC_PREFIX: string := "ENC:"

  predicate IsEncrypted(s: string) {
    ENC_PREFIX <= s
  }

  function TrimPrefix(s: string): string {
    if IsEncrypted(s) then s[|ENC_PREFIX|..] else s
  }

  /** Passing through, or a box around a text that a nonce makes different every time. */
  datatype Cipher = Nop | Aes(box: (nat, string) -> string, unbox: string -> Option<string>)
  {
    function Encrypt(nonce: nat, s: string): string {
      if Nop? then s else ENC_PREFIX + box(nonce, s)
    }

    function Decrypt(s: string): Option<string> {
      if Nop? then Some(s) else unbox(TrimPrefix(s))
    }

    /** Boxes open to what was put in, and no box is smaller than what is in it. */
    ghost predicate Lawful() {
      Aes? ==>
        && (forall k, s :: unbox(box(k, s)) == Some(s))
        && (forall b :: unbox(b).Some? ==> |unbox(b).value| <= |b|)
    }
  }

  // ---------------------------------------------------------------- fields

  function EncryptedField(c: Cipher, nonce: nat, s: string): string {
    if s == "" || IsEncrypted(s) then s else c.Encrypt(nonce, s)
  }

  function DecryptedField(c: Cipher, s: string): Option<string> {
    if !IsEncrypted(s) then Some(s) else c.Decrypt(s)
  }

  /** e is an encryption of s, under some nonce. */
  ghost predicate Seals(c: Cipher, s: string, e: string) {
    exists nonce: nat :: e == EncryptedField(c, nonce, s)
  }

  /** d is the decryption of e. */
  predicate Opens(c: Cipher, e: string, d: string) {
    DecryptedField(c, e) == Some(d)
  }

  /** A field survives encryption and decryption unless it looks encrypted to begin with. */
  lemma FieldRoundTrip(c: Cipher, s: string, e: string)
    requires c.Lawful() && Seals(c, s, e)
    ensures Opens(c, e, s) <==> c.Nop? || !IsEncrypted(s)
  {
    var nonce: nat :| e == EncryptedField(c, nonce, s);
    if c.Aes? && s != "" && !IsEncrypted(s) {
      assert TrimPrefix(e) == c.box(nonce, s);
    }
  }

  /** What is empty or sealed already is left as it is. */
  lemma SealedAlready(c: Cipher, s: string, e: string)
    requires c.Nop? || s == "" || IsEncrypted(s)
    ensures Seals(c, s, e) <==> e == s
  {
    assert s == EncryptedField(c, 0, s);
  }

  // ---------------------------------------------------------------- secrets

  function ConnectionSecrets(c: ConnectionValue): seq<string> {
    [c.auth.password] + (if c.auth.privateKey.Some? then [c.auth.privateKey.value.keyPem, c.auth.privateKey.value.passphrase] else [])
  }

  /** The same connection, but for its secrets. */
  predicate AlikeConnections(a: ConnectionValue, b: ConnectionValue) {
    && |ConnectionSecrets(a)| == |ConnectionSecrets(b)|
    && a.(auth := b.auth) == b
    && a.auth.kind == b.auth.kind && a.auth.username == b.auth.username
    && (a.auth.privateKey.Some? ==>
          b.auth.privateKey.value.(keyPem := a.auth.privateKey.value.keyPem, passphrase := a.auth.privateKey.value.passphrase)
          == a.auth.privateKey.value)
  }

  predicate AlikeMappings(a: MappingValue, b: MappingValue) {
    && a.socks5.Some? == b.socks5.Some?
    && a.(socks5 := b.socks5) == b
    && (a.socks5.Some? ==> b.socks5.value.(password := a.socks5.value.password) == a.socks5.value)
  }

  /** A relation between secrets, carried over to whole configurations: everything else is the same. */
  ghost predicate ConnectionsRelate(rel: (string, string) -> bool, a: ConnectionValue, b: ConnectionValue) {
    && AlikeConnections(a, b)
    && forall i :: 0 <= i < |ConnectionSecrets(a)| ==> rel(ConnectionSecrets(a)[i], ConnectionSecrets(b)[i])
  }

  ghost predicate KeysRelate(rel: (string, string) -> bool, a: KeyValue, b: KeyValue) {
    && a.source == b.source && a.filePath == b.filePath
    && rel(a.keyPem, b.keyPem) && rel(a.passphrase, b.passphrase)
  }

  ghost predicate MappingsRelate(rel: (string, string) -> bool, a: MappingValue, b: MappingValue) {
    && AlikeMappings(a, b)
    && (a.socks5.Some? ==> rel(a.socks5.value.password, b.socks5.value.password))
  }

  ghost predicate TunnelsRelate(rel: (string, string) -> bool, a: TunnelValue, b: TunnelValue) {
    && a.(mappings := b.mappings) == b
    && |a.mappings| == |b.mappings|
    && forall i :: 0 <= i < |a.mappings| ==> MappingsRelate(rel, a.mappings[i], b.mappings[i])
  }

  ghost predicate Relate(rel: (string, string) -> bool, a: Config, b: Config) {
    && a.settings == b.settings
    && |a.connections| == |b.connections| && |a.tunnels| == |b.tunnels|
    && (forall i :: 0 <= i < |a.connections| ==> ConnectionsRelate(rel, a.connections[i], b.connections[i]))
    && (forall i :: 0 <= i < |a.tunnels| ==> TunnelsRelate(rel, a.tunnels[i], b.tunnels[i]))
  }

  ghost function Sealing(c: Cipher): (string, string) -> bool {
    (s, e) => Seals(c, s, e)
  }

  function Opening(c: Cipher): (string, string) -> bool {
    (e, d) => Opens(c, e, d)
  }

  function Decryptable(c: Cipher): string -> bool {
    e => DecryptedField(c, e).Some?
  }

  /** e is the configuration v with its secrets encrypted. */
  ghost predicate Encrypts(c: Cipher, v: Config, e: Config) {
    Relate(Sealing(c), v, e)
  }

  /** d is the configuration e with its secrets decrypted. */
  ghost predicate Decrypts(c: Cipher, e: Config, d: Config) {
    Relate(Opening(c), e, d)
  }

  /** Every secret of a connection, a mapping, a tunnel, a configuration. */
  predicate ConnectionKeeps(p: string -> bool, c: ConnectionValue) {
    forall i :: 0 <= i < |ConnectionSecrets(c)| ==> p(ConnectionSecrets(c)[i])
  }

  predicate MappingKeeps(p: string -> bool, m: MappingValue) {
    m.socks5.Some? ==> p(m.socks5.value.password)
  }

  predicate TunnelKeeps(p: string -> bool, t: TunnelValue) {
    forall i :: 0 <= i < |t.mappings| ==> MappingKeeps(p, t.mappings[i])
  }

  predicate Keeps(p: string -> bool, v: Config) {
    && (forall i :: 0 <= i < |v.connections| ==> ConnectionKeeps(p, v.connections[i]))
    && (forall i :: 0 <= i < |v.tunnels| ==> TunnelKeeps(p, v.tunnels[i]))
  }

  /** None of the secrets looks encrypted. */
  predicate Unmarked(v: Config) {
    Keeps(s => !IsEncrypted(s), v)
  }

  // ---------------------------------------------------------------- from fields to configurations

  /** `back` undoes `rel` on a secret exactly when `plain` holds of it. */
  ghost predicate Undoes(rel: (string, string) -> bool, back: (string, string) -> bool, plain: string -> bool) {
    forall s, x :: rel(s, x) ==> (back(x, s) <==> plain(s))
  }

  lemma ConnectionUndone(rel: (string, string) -> bool, back: (string, string) -> bool, plain: string -> bool,
                         a: ConnectionValue, b: ConnectionValue)
    requires Undoes(rel, back, plain) && ConnectionsRelate(rel, a, b)
    ensures ConnectionsRelate(back, b, a) <==> ConnectionKeeps(plain, a)
  {
    assert AlikeConnections(b, a);
  }

  lemma TunnelUndone(rel: (string, string) -> bool, back: (string, string) -> bool, plain: string -> bool, a: TunnelValue, b: TunnelValue)
    requires Undoes(rel, back, plain) && TunnelsRelate(rel, a, b)
    ensures TunnelsRelate(back, b, a) <==> TunnelKeeps(plain, a)
  {
    forall i | 0 <= i < |a.mappings| ensures MappingsRelate(back, b.mappings[i], a.mappings[i]) <==> MappingKeeps(plain, a.mappings[i]) {
      assert MappingsRelate(rel, a.mappings[i], b.mappings[i]);
    }
  }

  lemma AllUndone(rel: (string, string) -> bool, back: (string, string) -> bool, plain: string -> bool, v: Config, e: Config)
    requires Undoes(rel, back, plain) && Relate(rel, v, e)
    ensures Relate(back, e, v) <==> Keeps(plain, v)
  {
    forall i | 0 <= i < |v.connections|
      ensures ConnectionsRelate(back, e.connections[i], v.connections[i]) <==> ConnectionKeeps(plain, v.connections[i])
    {
      ConnectionUndone(rel, back, plain, v.connections[i], e.connections[i]);
    }
    forall i | 0 <= i < |v.tunnels|
      ensures TunnelsRelate(back, e.tunnels[i], v.tunnels[i]) <==> TunnelKeeps(plain, v.tunnels[i])
    {
      TunnelUndone(rel, back, plain, v.tunnels[i], e.tunnels[i]);
    }
  }

  /**
   Decrypting what was encrypted gives back the whole configuration, field by
   field at every level, exactly when no secret in it looks encrypted already.
   */
  lemma RoundTrip(c: Cipher, v: Config, e: Config)
    requires c.Lawful() && Encrypts(c, v, e)
    ensures Decrypts(c, e, v) <==> c.Nop? || Unmarked(v)
  {
    var plain := s => c.Nop? || !IsEncrypted(s);
    forall s, x | Sealing(c)(s, x) ensures Opening(c)(x, s) <==> plain(s) {
      FieldRoundTrip(c, s, x);
    }
    AllUndone(Sealing(c), Opening(c), plain, v, e);
    assert Keeps(plain, v) <==> c.Nop? || Unmarked(v) by {
      KeepsAlike(plain, s => !IsEncrypted(s), c.Nop?, v);
    }
  }

  lemma KeepsAlike(p: string -> bool, q: string -> bool, always: bool, v: Config)
    requires forall s :: p(s) <==> always || q(s)
    ensures Keeps(p, v) <==> always || Keeps(q, v)
  {
    if !always {
      assert forall i :: 0 <= i < |v.connections| ==> (ConnectionKeeps(p, v.connections[i]) <==> ConnectionKeeps(q, v.connections[i]));
      assert forall i :: 0 <= i < |v.tunnels| ==> (TunnelKeeps(p, v.tunnels[i]) <==> TunnelKeeps(q, v.tunnels[i]));
    }
  }

  /** `rel` leaves every secret that `p` holds of as it is, and turns it into nothing else. */
  ghost predicate Fixes(rel: (string, string) -> bool, p: string -> bool) {
    forall s, x :: p(s) ==> (rel(s, x) <==> x == s)
  }

  lemma ConnectionFixed(rel: (string, string) -> bool, p: string -> bool, a: ConnectionValue, b: ConnectionValue)
    requires Fixes(rel, p) && ConnectionKeeps(p, a)
    ensures ConnectionsRelate(rel, a, b) <==> a == b
  {
    var sa, sb := ConnectionSecrets(a), ConnectionSecrets(b);
    if ConnectionsRelate(rel, a, b) {
      assert sb[0] == sa[0];
      if a.auth.privateKey.Some? {
        assert sb[1] == sa[1] && sb[2] == sa[2];
      }
    }
  }

  lemma TunnelFixed(rel: (string, string) -> bool, p: string -> bool, a: TunnelValue, b: TunnelValue)
    requires Fixes(rel, p) && TunnelKeeps(p, a)
    ensures TunnelsRelate(rel, a, b) <==> a == b
  {
    if TunnelsRelate(rel, a, b) {
      forall i | 0 <= i < |a.mappings| ensures a.mappings[i] == b.mappings[i] {
        assert MappingsRelate(rel, a.mappings[i], b.mappings[i]) && MappingKeeps(p, a.mappings[i]);
      }
      assert a.mappings == b.mappings;
    }
  }

  lemma AllFixed(rel: (string, string) -> bool, p: string -> bool, v: Config, w: Config)
    requires Fixes(rel, p) && Keeps(p, v)
    ensures Relate(rel, v, w) <==> v == w
  {
    forall i | 0 <= i < |v.connections| && |v.connections| == |w.connections|
      ensures ConnectionsRelate(rel, v.connections[i], w.connections[i]) <==> v.connections[i] == w.connections[i]
    {
      ConnectionFixed(rel, p, v.connections[i], w.connections[i]);
    }
    forall i | 0 <= i < |v.tunnels| && |v.tunnels| == |w.tunnels|
      ensures TunnelsRelate(rel, v.tunnels[i], w.tunnels[i]) <==> v.tunnels[i] == w.tunnels[i]
    {
      TunnelFixed(rel, p, v.tunnels[i], w.tunnels[i]);
    }
    if Relate(rel, v, w) {
      assert v.connections == w.connections && v.tunnels == w.tunnels;
    }
  }

  /** A configuration in plain text is its own and only decryption. */
  lemma PlaintextDecryptsToItself(c: Cipher, v: Config, d: Config)
    requires Unmarked(v)
    ensures Decrypts(c, v, d) <==> d == v
  {
    AllFixed(Opening(c), s => !IsEncrypted(s), v, d);
  }

  /** Nothing that tells: no text at all, or one behind the marker. */
  predicate Hidden(s: string) {
    s == "" || "ENC:" <= s
  }

  lemma NothingInAConnection(c: Cipher, v: ConnectionValue, e: ConnectionValue)
    requires ConnectionsRelate(Sealing(c), v, e) && c.Aes?
    ensures Hidden(e.auth.password)
    ensures e.auth.privateKey.Some? ==> Hidden(e.auth.privateKey.value.keyPem) && Hidden(e.auth.privateKey.value.passphrase)
  {
    var secrets, sealed := ConnectionSecrets(v), ConnectionSecrets(e);
    assert Seals(c, secrets[0], sealed[0]);
    if e.auth.privateKey.Some? {
      assert Seals(c, secrets[1], sealed[1]) && Seals(c, secrets[2], sealed[2]);
    }
  }

  /** What encryption leaves on disk: under a real cipher no password, key or passphrase in plain text. */
  lemma NothingInPlainText(c: Cipher, v: Config, e: Config)
    requires Encrypts(c, v, e) && c.Aes?
    ensures forall i :: 0 <= i < |e.connections| ==>
              var auth := e.connections[i].auth;
              && Hidden(auth.password)
              && (auth.privateKey.Some? ==> Hidden(auth.privateKey.value.keyPem) && Hidden(auth.privateKey.value.passphrase))
    ensures forall i, j :: 0 <= i < |e.tunnels| && 0 <= j < |e.tunnels[i].mappings| ==>
              var socks5 := e.tunnels[i].mappings[j].socks5;
              socks5.Some? ==> Hidden(socks5.value.password)
  {
    forall i | 0 <= i < |e.connections|
      ensures var auth := e.connections[i].auth;
              && Hidden(auth.password)
              && (auth.privateKey.Some? ==> Hidden(auth.privateKey.value.keyPem) && Hidden(auth.privateKey.value.passphrase))
    {
      NothingInAConnection(c, v.connections[i], e.connections[i]);
    }
    forall i, j | 0 <= i < |e.tunnels| && 0 <= j < |e.tunnels[i].mappings|
      ensures var socks5 := e.tunnels[i].mappings[j].socks5; socks5.Some? ==> Hidden(socks5.value.password)
    {
      assert TunnelsRelate(Sealing(c), v.tunnels[i], e.tunnels[i]);
      assert MappingsRelate(Sealing(c), v.tunnels[i].mappings[j], e.tunnels[i].mappings[j]);
    }
  }

  /** Encrypting again changes nothing. */
  lemma EncryptionIsIdempotent(c: Cipher, v: Config, e: Config, e2: Config)
    requires Encrypts(c, v, e)
    ensures Encrypts(c, e, e2) <==> e2 == e
  {
    var p := s => c.Nop? || s == "" || IsEncrypted(s);
    forall s, x | p(s) ensures Sealing(c)(s, x) <==> x == s {
      SealedAlready(c, s, x);
    }
    if c.Aes? {
      NothingInPlainText(c, v, e);
    }
    KeepsAlike(p, s => s == "" || IsEncrypted(s), c.Nop?, e);
    AllFixed(Sealing(c), p, e, e2);
  }

  /** There is one decryption at most. */
  lemma DecryptionIsUnique(c: Cipher, e: Config, d: Config, d': Config)
    requires Decrypts(c, e, d) && Decrypts(c, e, d')
    ensures d == d'
  {
    forall i | 0 <= i < |d.connections| ensures d.connections[i] == d'.connections[i] {
      SameConnection(c, e.connections[i], d.connections[i], d'.connections[i]);
    }
    forall i | 0 <= i < |d.tunnels| ensures d.tunnels[i] == d'.tunnels[i] {
      var t, u := d.tunnels[i], d'.tunnels[i];
      assert TunnelsRelate(Opening(c), e.tunnels[i], t) && TunnelsRelate(Opening(c), e.tunnels[i], u);
      forall j | 0 <= j < |t.mappings| ensures t.mappings[j] == u.mappings[j] {
        assert MappingsRelate(Opening(c), e.tunnels[i].mappings[j], t.mappings[j]);
        assert MappingsRelate(Opening(c), e.tunnels[i].mappings[j], u.mappings[j]);
      }
      assert t.mappings == u.mappings;
    }
    assert d.connections == d'.connections && d.tunnels == d'.tunnels;
  }

  lemma SameConnection(c: Cipher, e: ConnectionValue, a: ConnectionValue, b: ConnectionValue)
    requires ConnectionsRelate(Opening(c), e, a) && ConnectionsRelate(Opening(c), e, b)
    ensures a == b
  {
    var se, sa, sb := ConnectionSecrets(e), ConnectionSecrets(a), ConnectionSecrets(b);
    assert Opens(c, se[0], sa[0]) && Opens(c, se[0], sb[0]);
    if e.auth.privateKey.Some? {
      assert Opens(c, se[1], sa[1]) && Opens(c, se[1], sb[1]) && Opens(c, se[2], sa[2]) && Opens(c, se[2], sb[2]);
    }
  }
}
