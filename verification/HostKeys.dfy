/** Trust on first use: which host keys are accepted, remembered, put on hold and confirmed. */
module HostKeys {
  import opened Prelude

  type HostPort = string
  type Key = seq<int>

  datatype Mode = Insecure | AcceptNew | Strict | Unrecognised

  /** Trusted keys and keys offered but not confirmed. */
  datatype Trust = Trust(keys: map<HostPort, Key>, pending: map<HostPort, Key>)

  /** SHA-256 fingerprints; bytes that are no public key have none. */
  type FingerprintOf = Key -> Option<string>

  datatype Op =
    | Handshake(mode: Mode, host: HostPort, key: Key)
    | Confirm(host: HostPort, fingerprint: string)
    | Revoke(host: HostPort)

  datatype Reply = Accepted | Rejected | BadRequest | NoPending | WrongFingerprint | Failed | Done

  /** One callback or request, and whether a write of the trusted keys would succeed. */
  datatype Call = Call(op: Op, saveOk: bool)

  /** The host key callback of a handshake. An unrecognised mode must never mean "skip". */
  function Callback(t: Trust, mode: Mode, host: HostPort, key: Key, saveOk: bool): (Trust, Reply) {
    match mode
    case Insecure => (t, Accepted)
    case AcceptNew =>
      if host !in t.keys then (t.(keys := t.keys[host := key]), if saveOk then Accepted else Rejected)
      else if t.keys[host] != key then (t.(pending := t.pending[host := key]), Rejected)
      else (t, Accepted)
    case Strict =>
      if host !in t.keys || t.keys[host] != key then (t.(pending := t.pending[host := key]), Rejected)
      else (t, Accepted)
    case Unrecognised => (t, Rejected)
  }

  /** trustHostKey: promote the pending key, provided its fingerprint is the one confirmed. */
  function ConfirmStep(t: Trust, fp: FingerprintOf, host: HostPort, fingerprint: string, saveOk: bool): (Trust, Reply) {
    if host == "" || fingerprint == "" then (t, BadRequest)
    else if host !in t.pending then (t, NoPending)
    else
      var key := t.pending[host];
      if fp(key).None? then (t, Failed)
      else if fp(key).value != fingerprint then (t, WrongFingerprint)
      else
        var added := t.(keys := t.keys[host := key]);
        if saveOk then (added.(pending := t.pending - {host}), Done) else (added, Failed)
  }

  /** revokeHostKey: forget the trusted key; a missing one needs no write. */
  function RevokeStep(t: Trust, host: HostPort, saveOk: bool): (Trust, Reply) {
    if host == "" then (t, BadRequest)
    else if host in t.keys && !saveOk then (t.(keys := t.keys - {host}), Failed)
    else (Trust(t.keys - {host}, t.pending - {host}), Done)
  }

  function Step(t: Trust, fp: FingerprintOf, c: Call): (Trust, Reply) {
    match c.op
    case Handshake(mode, host, key) => Callback(t, mode, host, key, c.saveOk)
    case Confirm(host, fingerprint) => ConfirmStep(t, fp, host, fingerprint, c.saveOk)
    case Revoke(host) => RevokeStep(t, host, c.saveOk)
  }

  /** Pending keys live in memory only, so a start-up knows the trusted ones and no others. */
  function Initial(keys: map<HostPort, Key>): Trust {
    Trust(keys, map[])
  }

  function Run(t: Trust, fp: FingerprintOf, calls: seq<Call>): Trust
    decreases |calls|
  {
    if calls == [] then t else Step(Run(t, fp, calls[..|calls| - 1]), fp, calls[|calls| - 1]).0
  }

  /** The reply to the i-th call of a run. */
  function ReplyAt(t: Trust, fp: FingerprintOf, calls: seq<Call>, i: nat): Reply
    requires i < |calls|
  {
    Step(Run(t, fp, calls[..i]), fp, calls[i]).1
  }

  function Lookup<V>(m: map<HostPort, V>, host: HostPort): Option<V> {
    if host in m then Some(m[host]) else None
  }

  // ---------------------------------------------------------------- where trusted keys come from

  /** A handshake for the host that failed because its key is not the trusted one. */
  ghost predicate PutsOnHold(t: Trust, c: Call, host: HostPort) {
    && c.op.Handshake? && c.op.host == host
    && (c.op.mode.Strict? || (c.op.mode.AcceptNew? && host in t.keys))
    && Lookup(t.keys, host) != Some(c.op.key)
  }

  /** How a host stands after some calls: its trusted key, and the key on hold for it. */
  datatype Standing = Standing(trusted: Option<Key>, held: Option<Key>)

  /** What a confirmation has to name: the fingerprint of the key on hold. */
  predicate Confirms(held: Option<Key>, fp: FingerprintOf, fingerprint: string) {
    held.Some? && fp(held.value) == Some(fingerprint)
  }

  /** The same host after one more call that is about it. */
  function Moved(st: Standing, fp: FingerprintOf, c: Call): Standing {
    match c.op
    case Handshake(mode, _, key) =>
      if mode.AcceptNew? && st.trusted.None? then st.(trusted := Some(key))
      else if (mode.AcceptNew? || mode.Strict?) && st.trusted != Some(key) then st.(held := Some(key))
      else st
    case Confirm(_, fingerprint) =>
      if fingerprint == "" || !Confirms(st.held, fp, fingerprint) then st
      else Standing(st.held, if c.saveOk then None else st.held)
    case Revoke(_) => Standing(None, if st.trusted.None? || c.saveOk then None else st.held)
  }

  /** Whether a call is about a host; requests have to name one. */
  predicate About(c: Call, host: HostPort) {
    c.op.host == host && (c.op.Handshake? || host != "")
  }

  /**
   How a host stands, read off the calls about it alone: first contact in
   acceptNew is trusted, a key that should have been another is put on hold, its
   confirmation trusts it, and a revocation forgets both.
   */
  function StandingOf(keys: map<HostPort, Key>, fp: FingerprintOf, calls: seq<Call>, host: HostPort): Standing
    decreases |calls|
  {
    if calls == [] then Standing(Lookup(keys, host), None)
    else
      var before, c := StandingOf(keys, fp, calls[..|calls| - 1], host), calls[|calls| - 1];
      if About(c, host) then Moved(before, fp, c) else before
  }

  /** The key of the last rejected handshake since the host's last successful trust or revoke. */
  function OnHold(keys: map<HostPort, Key>, fp: FingerprintOf, calls: seq<Call>, host: HostPort): Option<Key> {
    StandingOf(keys, fp, calls, host).held
  }

  /** Exactly that key is pending and exactly that one trusted, for every run and whatever writes fail. */
  lemma {:induction false} PendingIsTheLastRejected(keys: map<HostPort, Key>, fp: FingerprintOf, calls: seq<Call>, host: HostPort)
    ensures Lookup(Run(Initial(keys), fp, calls).pending, host) == OnHold(keys, fp, calls, host)
    ensures Lookup(Run(Initial(keys), fp, calls).keys, host) == StandingOf(keys, fp, calls, host).trusted
    decreases |calls|
  {
    if calls != [] {
      var init, c := calls[..|calls| - 1], calls[|calls| - 1];
      PendingIsTheLastRejected(keys, fp, init, host);
      OneCall(Run(Initial(keys), fp, init), fp, c, host);
    }
  }

  function StandingIn(t: Trust, host: HostPort): Standing {
    Standing(Lookup(t.keys, host), Lookup(t.pending, host))
  }

  lemma OneCall(t: Trust, fp: FingerprintOf, c: Call, host: HostPort)
    ensures StandingIn(Step(t, fp, c).0, host) == if About(c, host) then Moved(StandingIn(t, host), fp, c) else StandingIn(t, host)
  {
  }

  // ---------------------------------------------------------------- verdicts

  /** Why a handshake is let through. */
  ghost predicate MayPass(st: Standing, mode: Mode, key: Key, saveOk: bool) {
    || mode == Insecure
    || ((mode == AcceptNew || mode == Strict) && st.trusted == Some(key))
    || (mode == AcceptNew && st.trusted == None && saveOk)
  }

  /**
   Over every run: a handshake is accepted exactly when its mode is insecure, or
   it presents the trusted key in a mode that verifies, or it is the first
   contact in acceptNew and could be saved. Everything else is rejected.
   */
  lemma AcceptedExactlyWhen(keys: map<HostPort, Key>, fp: FingerprintOf, calls: seq<Call>, i: nat)
    requires i < |calls| && calls[i].op.Handshake?
    ensures var Handshake(mode, host, key) := calls[i].op;
            var reply := ReplyAt(Initial(keys), fp, calls, i);
            && (reply == Accepted <==> MayPass(StandingOf(keys, fp, calls[..i], host), mode, key, calls[i].saveOk))
            && (reply != Accepted ==> reply == Rejected)
  {
    PendingIsTheLastRejected(keys, fp, calls[..i], calls[i].op.host);
  }

  /** A confirmation succeeds exactly when it names the key on hold and could be saved; each other answer has its reason. */
  lemma ConfirmedExactlyWhen(keys: map<HostPort, Key>, fp: FingerprintOf, calls: seq<Call>, i: nat)
    requires i < |calls| && calls[i].op.Confirm?
    ensures var Confirm(host, fingerprint) := calls[i].op;
            var reply, held := ReplyAt(Initial(keys), fp, calls, i), OnHold(keys, fp, calls[..i], host);
            && (reply == BadRequest <==> host == "" || fingerprint == "")
            && (reply == NoPending <==> host != "" && fingerprint != "" && held == None)
            && (reply == WrongFingerprint <==>
                  host != "" && fingerprint != "" && held.Some? && fp(held.value).Some? && fp(held.value) != Some(fingerprint))
            && (reply == Done <==>
                  host != "" && fingerprint != "" && held.Some? && fp(held.value) == Some(fingerprint) && calls[i].saveOk)
            && reply in {BadRequest, NoPending, WrongFingerprint, Done, Failed}
  {
    PendingIsTheLastRejected(keys, fp, calls[..i], calls[i].op.host);
  }

  /** A revocation succeeds exactly when there was nothing to forget or that could be saved. */
  lemma RevokedExactlyWhen(keys: map<HostPort, Key>, fp: FingerprintOf, calls: seq<Call>, i: nat)
    requires i < |calls| && calls[i].op.Revoke?
    ensures var host, reply := calls[i].op.host, ReplyAt(Initial(keys), fp, calls, i);
            && (reply == BadRequest <==> host == "")
            && (reply == Done <==> host != "" && (StandingOf(keys, fp, calls[..i], host).trusted == None || calls[i].saveOk))
            && reply in {BadRequest, Done, Failed}
  {
    PendingIsTheLastRejected(keys, fp, calls[..i], calls[i].op.host);
  }

  // ---------------------------------------------------------------- how trust changes

  /**
   The three ways a call, made after the given ones, sets a host's trusted key:
   first contact in acceptNew, confirmation of the fingerprint of the last key
   rejected for the host since its last trust or revocation, or revocation.
   */
  ghost predicate SetsTrust(keys: map<HostPort, Key>, fp: FingerprintOf, before: seq<Call>, c: Call, host: HostPort, now: Option<Key>) {
    match c.op
    case Handshake(mode, h, key) =>
      h == host && mode.AcceptNew? && StandingOf(keys, fp, before, host).trusted == None && now == Some(key)
    case Confirm(h, fingerprint) =>
      && h == host && host != "" && fingerprint != ""
      && now.Some? && now == OnHold(keys, fp, before, host) && fp(now.value) == Some(fingerprint)
    case Revoke(h) => h == host && host != "" && now == None
  }

  /** Over every run, a trusted key changes in one of these ways only, and each of them does set it, even if it cannot be saved. */
  lemma TrustChangesOnlyLegitimately(keys: map<HostPort, Key>, fp: FingerprintOf, calls: seq<Call>, i: nat, host: HostPort)
    requires i < |calls|
    ensures var before := Lookup(Run(Initial(keys), fp, calls[..i]).keys, host);
            var after := Lookup(Run(Initial(keys), fp, calls[..i + 1]).keys, host);
            && (after != before ==> SetsTrust(keys, fp, calls[..i], calls[i], host, after))
            && (forall now :: SetsTrust(keys, fp, calls[..i], calls[i], host, now) ==> after == now)
  {
    assert calls[..i + 1][..i] == calls[..i];
    PendingIsTheLastRejected(keys, fp, calls[..i], host);
  }

  ghost predicate Offered(calls: seq<Call>, host: HostPort, key: Key) {
    exists i :: 0 <= i < |calls| && calls[i].op.Handshake? && calls[i].op.host == host && calls[i].op.key == key
  }

  lemma OfferedLater(calls: seq<Call>, host: HostPort, key: Key)
    requires calls != [] && Offered(calls[..|calls| - 1], host, key)
    ensures Offered(calls, host, key)
  {
    var i :| 0 <= i < |calls| - 1 && calls[..|calls| - 1][i].op.Handshake? && calls[..|calls| - 1][i].op.host == host
             && calls[..|calls| - 1][i].op.key == key;
    assert calls[i].op.Handshake? && calls[i].op.host == host && calls[i].op.key == key;
  }

  /**
   Requests carry no key material: every key that is ever pending or trusted was
   trusted from the start or offered by that very host in a handshake.
   */
  lemma {:induction false} NoKeyIsInjected(keys: map<HostPort, Key>, fp: FingerprintOf, calls: seq<Call>, host: HostPort)
    ensures var t := Run(Initial(keys), fp, calls);
            && (host in t.pending ==> Offered(calls, host, t.pending[host]))
            && (host in t.keys ==> Lookup(keys, host) == Some(t.keys[host]) || Offered(calls, host, t.keys[host]))
    decreases |calls|
  {
    if calls != [] {
      var n := |calls| - 1;
      var init, c := calls[..n], calls[n];
      NoKeyIsInjected(keys, fp, init, host);
      var t := Run(Initial(keys), fp, init);
      if host in t.pending {
        OfferedLater(calls, host, t.pending[host]);
      }
      if host in t.keys && Offered(init, host, t.keys[host]) {
        OfferedLater(calls, host, t.keys[host]);
      }
      if c.op.Handshake? && c.op.host == host {
        assert Offered(calls, host, c.op.key);
      }
    }
  }

  // ---------------------------------------------------------------- one key between two changes

  /** A handshake that verification, not indifference, accepted. */
  ghost predicate VerifiedAt(t0: Trust, fp: FingerprintOf, calls: seq<Call>, i: nat, host: HostPort)
    requires i < |calls|
  {
    && calls[i].op.Handshake? && calls[i].op.host == host
    && (calls[i].op.mode.AcceptNew? || calls[i].op.mode.Strict?)
    && ReplyAt(t0, fp, calls, i).Accepted?
  }

  lemma {:induction false} StableTrust(t0: Trust, fp: FingerprintOf, calls: seq<Call>, host: HostPort, i: nat, j: nat)
    requires i <= j <= |calls|
    requires forall k :: i <= k < j ==> Lookup(Run(t0, fp, calls[..k + 1]).keys, host) == Lookup(Run(t0, fp, calls[..k]).keys, host)
    ensures Lookup(Run(t0, fp, calls[..j]).keys, host) == Lookup(Run(t0, fp, calls[..i]).keys, host)
    decreases j - i
  {
    if i < j {
      StableTrust(t0, fp, calls, host, i, j - 1);
    }
  }

  /** An accepted verified handshake presents the key trusted right after it. */
  lemma VerifiedPresentsTheTrustedKey(t0: Trust, fp: FingerprintOf, calls: seq<Call>, host: HostPort, i: nat)
    requires i < |calls| && VerifiedAt(t0, fp, calls, i, host)
    ensures Lookup(Run(t0, fp, calls[..i + 1]).keys, host) == Some(calls[i].op.key)
  {
    assert calls[..i + 1][..i] == calls[..i];
  }

  /** All verified handshakes between two changes of a host's trusted key present the same key. */
  lemma SameKeyBetweenChanges(t0: Trust, fp: FingerprintOf, calls: seq<Call>, host: HostPort, i: nat, j: nat)
    requires i < j < |calls| && VerifiedAt(t0, fp, calls, i, host) && VerifiedAt(t0, fp, calls, j, host)
    requires forall k :: i < k <= j ==> Lookup(Run(t0, fp, calls[..k + 1]).keys, host) == Lookup(Run(t0, fp, calls[..k]).keys, host)
    ensures calls[i].op.key == calls[j].op.key
  {
    VerifiedPresentsTheTrustedKey(t0, fp, calls, host, i);
    VerifiedPresentsTheTrustedKey(t0, fp, calls, host, j);
    StableTrust(t0, fp, calls, host, i + 1, j + 1);
  }

  // ---------------------------------------------------------------- the store and its users

  class HostKeyStore {
    var keys: map<HostPort, Key>
    var pending: map<HostPort, Key>

    ghost function View(): Trust
      reads this
    {
      Trust(keys, pending)
    }

    constructor (onDisk: map<HostPort, Key>)
      ensures View() == Initial(onDisk)
    {
      keys, pending := onDisk, map[];
    }

    method Add(host: HostPort, key: Key, saveOk: bool) returns (ok: bool)
      modifies this`keys
      ensures keys == old(keys)[host := key] && ok == saveOk
    {
      keys := keys[host := key];
      ok := saveOk;
    }

    method Delete(host: HostPort, saveOk: bool) returns (ok: bool)
      modifies this`keys
      ensures keys == old(keys) - {host} && (ok <==> host !in old(keys) || saveOk)
    {
      if host !in keys {
        return true;
      }
      keys := keys - {host};
      ok := saveOk;
    }

    method SetPending(host: HostPort, key: Key)
      modifies this`pending
      ensures pending == old(pending)[host := key]
    {
      pending := pending[host := key];
    }

    method ClearPending(host: HostPort)
      modifies this`pending
      ensures pending == old(pending) - {host}
    {
      pending := pending - {host};
    }
  }

  datatype Reason = Changed | Unknown

  datatype Mismatch = Mismatch(host: HostPort, reason: Reason, stored: Option<string>, offered: Option<string>)

  /** One verifier per handshake; it records why the key was refused. */
  class HostKeyVerifier {
    const mode: Mode
    const store: HostKeyStore
    const host: HostPort
    var mismatch: Option<Mismatch>

    constructor (mode: Mode, store: HostKeyStore, host: HostPort)
      ensures this.mode == mode && this.store == store && this.host == host && mismatch == None
    {
      this.mode, this.store, this.host, mismatch := mode, store, host, None;
    }

    method Record(reason: Reason, key: Key, stored: Option<Key>, fp: FingerprintOf)
      modifies this, store`pending
      ensures store.pending == old(store.pending)[host := key]
      ensures mismatch == Some(Mismatch(host, reason, if stored.Some? then fp(stored.value) else None, fp(key)))
    {
      store.SetPending(host, key);
      mismatch := Some(Mismatch(host, reason, if stored.Some? then fp(stored.value) else None, fp(key)));
    }

    /** A mismatch is recorded exactly when the key was put on hold, with the reason. */
    method Verify(key: Key, fp: FingerprintOf, saveOk: bool) returns (accepted: bool)
      requires mismatch == None
      modifies this, store
      ensures (store.View(), if accepted then Accepted else Rejected) == Callback(old(store.View()), mode, host, key, saveOk)
      ensures mismatch.Some? <==> PutsOnHold(old(store.View()), Call(Handshake(mode, host, key), saveOk), host)
      ensures mismatch.Some? ==> mismatch.value.reason == if host in old(store.keys) then Changed else Unknown
    {
      match mode {
        case Insecure =>
          accepted := true;
        case AcceptNew =>
          if host !in store.keys {
            accepted := store.Add(host, key, saveOk);
          } else if store.keys[host] != key {
            Record(Changed, key, Some(store.keys[host]), fp);
            accepted := false;
          } else {
            accepted := true;
          }
        case Strict =>
          if host !in store.keys {
            Record(Unknown, key, None, fp);
            accepted := false;
          } else if store.keys[host] != key {
            Record(Changed, key, Some(store.keys[host]), fp);
            accepted := false;
          } else {
            accepted := true;
          }
        case Unrecognised =>
          accepted := false;
      }
    }
  }

  method TrustHostKey(store: HostKeyStore, fp: FingerprintOf, host: HostPort, fingerprint: string, saveOk: bool)
    returns (reply: Reply)
    modifies store
    ensures (store.View(), reply) == ConfirmStep(old(store.View()), fp, host, fingerprint, saveOk)
  {
    if host == "" || fingerprint == "" {
      return BadRequest;
    }
    if host !in store.pending {
      return NoPending;
    }
    var key := store.pending[host];
    if fp(key).None? {
      return Failed;
    }
    if fp(key).value != fingerprint {
      return WrongFingerprint;
    }
    var ok := store.Add(host, key, saveOk);
    if !ok {
      return Failed;
    }
    store.ClearPending(host);
    reply := Done;
  }

  method RevokeHostKey(store: HostKeyStore, host: HostPort, saveOk: bool) returns (reply: Reply)
    modifies store
    ensures (store.View(), reply) == RevokeStep(old(store.View()), host, saveOk)
  {
    if host == "" {
      return BadRequest;
    }
    var ok := store.Delete(host, saveOk);
    if !ok {
      return Failed;
    }
    store.ClearPending(host);
    reply := Done;
  }
}
