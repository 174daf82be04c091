/** What every client is told, byte by byte, whether it is let in or turned away. */
module Socks5Answers {
  import opened Prelude
  import opened Bytes
  import opened Socks5

  /** The method a proxy with or without a login requires. */
  function Wanted(creds: Option<Credentials>): byte {
    if creds.Some? then 2 else 0
  }

  /** What a client sees that gets through the negotiation. */
  function Welcome(creds: Option<Credentials>): seq<byte> {
    if creds.Some? then [5, 2, 1, 0] else [5, 0]
  }

  // ---------------------------------------------------------------- messages in bytes

  ghost predicate IsMethods(s: seq<byte>, methods: seq<byte>, rest: seq<byte>) {
    0 < |methods| < 256 && s == [5, |methods|] + methods + rest
  }

  ghost predicate IsLogin(s: seq<byte>, user: seq<byte>, pass: seq<byte>, rest: seq<byte>) {
    |user| < 256 && |pass| < 256 && s == [1, |user|] + user + [|pass|] + pass + rest
  }

  lemma MethodsInBytes(s: seq<byte>, methods: seq<byte>, rest: seq<byte>)
    ensures Methods(s) == Ok(Got(methods, rest)) <==> IsMethods(s, methods, rest)
  {
    MethodsExact(s, methods, rest);
  }

  lemma LoginInBytes(s: seq<byte>, user: seq<byte>, pass: seq<byte>, rest: seq<byte>)
    ensures UserPass(s) == Ok(Got((user, pass), rest)) <==> IsLogin(s, user, pass, rest)
  {
    UserPassExact(s, user, pass, rest);
  }

  // ---------------------------------------------------------------- turned away

  /** Who does not offer the required method is told that none will do. */
  lemma NoMethodWillDo(creds: Option<Credentials>, s: seq<byte>, methods: seq<byte>, rest: seq<byte>)
    requires IsMethods(s, methods, rest) && Wanted(creds) !in methods
    ensures Serve(creds, s) == Session([5, 255], None)
  {
    MethodsInBytes(s, methods, rest);
  }

  /** A wrong user or password is answered with a failure. */
  lemma WrongLoginIsToldSo(creds: Credentials, s: seq<byte>, methods: seq<byte>, t: seq<byte>, user: seq<byte>, pass: seq<byte>, rest: seq<byte>)
    requires IsMethods(s, methods, t) && 2 in methods
    requires IsLogin(t, user, pass, rest) && (user != creds.user || pass != creds.pass)
    ensures Serve(Some(creds), s) == Session([5, 2, 1, 1], None)
  {
    MethodsInBytes(s, methods, t);
    LoginInBytes(t, user, pass, rest);
  }

  /** What cannot be read as an offer of methods is not answered at all. */
  lemma NoOfferNoAnswer(creds: Option<Credentials>, s: seq<byte>)
    requires forall methods: seq<byte>, rest: seq<byte> :: !IsMethods(s, methods, rest)
    ensures Serve(creds, s) == Session([], None)
  {
    if Methods(s).Ok? {
      MethodsInBytes(s, Methods(s).value.value, Methods(s).value.rest);
    }
  }

  /** What cannot be read as a login gets the choice of a method, and nothing after it. */
  lemma NoLoginNoAnswer(creds: Credentials, s: seq<byte>, methods: seq<byte>, t: seq<byte>)
    requires IsMethods(s, methods, t) && 2 in methods
    requires forall user: seq<byte>, pass: seq<byte>, rest: seq<byte> :: !IsLogin(t, user, pass, rest)
    ensures Serve(Some(creds), s) == Session([5, 2], None)
  {
    MethodsInBytes(s, methods, t);
    if UserPass(t).Ok? {
      var Got((user, pass), rest) := UserPass(t).value;
      LoginInBytes(t, user, pass, rest);
    }
  }

  // ---------------------------------------------------------------- let in

  /** The negotiation was passed, with `request` still unread. */
  ghost predicate LetIn(creds: Option<Credentials>, s: seq<byte>, request: seq<byte>) {
    exists methods: seq<byte>, t: seq<byte> ::
      && IsMethods(s, methods, t) && Wanted(creds) in methods
      && (if creds.Some? then IsLogin(t, creds.value.user, creds.value.pass, request) else t == request)
  }

  lemma LetInIsWelcomed(creds: Option<Credentials>, s: seq<byte>, request: seq<byte>)
    requires LetIn(creds, s, request)
    ensures Negotiate(creds, s) == Turn(Welcome(creds), Some(request))
    ensures Serve(creds, s) == Session(Welcome(creds) + Ask(request).sent, Ask(request).handed)
  {
    var methods: seq<byte>, t: seq<byte> :|
      && IsMethods(s, methods, t) && Wanted(creds) in methods
      && (if creds.Some? then IsLogin(t, creds.value.user, creds.value.pass, request) else t == request);
    ChosenAndLoggedIn(creds, s, methods, t, request);
    ServeLetsIn(creds, s, request);
  }

  lemma ChosenWithoutLogin(s: seq<byte>, methods: seq<byte>, request: seq<byte>)
    requires IsMethods(s, methods, request) && 0 in methods
    ensures Negotiate(None, s) == Turn([5, 0], Some(request))
  {
    MethodsInBytes(s, methods, request);
  }

  lemma RightLogin(creds: Credentials, t: seq<byte>, request: seq<byte>)
    requires IsLogin(t, creds.user, creds.pass, request)
    ensures Login(Some(creds), t) == Turn([1, 0], Some(request))
  {
    LoginInBytes(t, creds.user, creds.pass, request);
  }

  lemma ChosenWithLogin(creds: Credentials, s: seq<byte>, methods: seq<byte>, t: seq<byte>, request: seq<byte>)
    requires IsMethods(s, methods, t) && 2 in methods && Login(Some(creds), t) == Turn([1, 0], Some(request))
    ensures Negotiate(Some(creds), s) == Turn([5, 2, 1, 0], Some(request))
  {
    MethodsInBytes(s, methods, t);
  }

  lemma ChosenAndLoggedIn(creds: Option<Credentials>, s: seq<byte>, methods: seq<byte>, t: seq<byte>, request: seq<byte>)
    requires IsMethods(s, methods, t) && Wanted(creds) in methods
    requires if creds.Some? then IsLogin(t, creds.value.user, creds.value.pass, request) else t == request
    ensures Negotiate(creds, s) == Turn(Welcome(creds), Some(request))
  {
    if creds.Some? {
      RightLogin(creds.value, t, request);
      ChosenWithLogin(creds.value, s, methods, t, request);
    } else {
      ChosenWithoutLogin(s, methods, request);
    }
  }

  /** And only those are let in. */
  lemma WelcomedIsLetIn(creds: Option<Credentials>, s: seq<byte>, request: seq<byte>)
    requires Negotiate(creds, s).left == Some(request)
    ensures LetIn(creds, s, request)
  {
    var Got(methods, t) := Methods(s).value;
    MethodsInBytes(s, methods, t);
    if creds.Some? {
      LoginInBytes(t, creds.value.user, creds.value.pass, request);
    }
    assert IsMethods(s, methods, t);
  }

  lemma AskInBytes(request: seq<byte>, got: Got<Request>)
    requires IsRequest(request, got)
    ensures Ask(request) ==
            if got.value.cmd == 1 || got.value.cmd == 2 then Session([], Some(got))
            else Session([5, 7, 0, 1, 0, 0, 0, 0, 0, 0], None)
  {
    RequestExact(request, got.value, got.rest);
    RefusalInBytes();
  }

  lemma RefusalInBytes()
    ensures Reply(REP_CMD_NOT_SUPPORTED, None) == [5, 7, 0, 1, 0, 0, 0, 0, 0, 0]
  {
  }

  lemma AskNothing(request: seq<byte>)
    requires forall got: Got<Request> :: !IsRequest(request, got)
    ensures Ask(request) == Session([], None)
  {
    if ReadRequest(request).Ok? {
      var got := ReadRequest(request).value;
      RequestExact(request, got.value, got.rest);
      assert IsRequest(request, got);
    }
  }

  lemma NothingMore(s: seq<byte>)
    ensures s + [] == s
  {
  }

  /** A request for something else than connect and bind is told so. */
  lemma OtherCommandsAreRefused(creds: Option<Credentials>, s: seq<byte>, request: seq<byte>, got: Got<Request>)
    requires LetIn(creds, s, request) && IsRequest(request, got) && got.value.cmd != 1 && got.value.cmd != 2
    ensures Serve(creds, s) == Session(Welcome(creds) + [5, 7, 0, 1, 0, 0, 0, 0, 0, 0], None)
  {
    LetInIsWelcomed(creds, s, request);
    AskInBytes(request, got);
  }

  /** What cannot be read as a request gets the welcome, and nothing after it. */
  lemma NoRequestNoAnswer(creds: Option<Credentials>, s: seq<byte>, request: seq<byte>)
    requires LetIn(creds, s, request) && forall got: Got<Request> :: !IsRequest(request, got)
    ensures Serve(creds, s) == Session(Welcome(creds), None)
  {
    LetInIsWelcomed(creds, s, request);
    AskNothing(request);
    NothingMore(Welcome(creds));
  }

  /** A request to connect or to bind is handed over, after the welcome. */
  lemma RequestsAreHandedOver(creds: Option<Credentials>, s: seq<byte>, request: seq<byte>, got: Got<Request>)
    requires LetIn(creds, s, request) && IsRequest(request, got) && (got.value.cmd == 1 || got.value.cmd == 2)
    ensures Serve(creds, s) == Session(Welcome(creds), Some(got))
  {
    LetInIsWelcomed(creds, s, request);
    AskInBytes(request, got);
    NothingMore(Welcome(creds));
  }

  // ---------------------------------------------------------------- everybody

  /** The seven ways a client can behave. */
  datatype Outcome =
    | NoOffer | NoMethod | NoLogin | WrongLogin | NoRequest | OtherCommand | Asked(got: Got<Request>)

  ghost predicate Behaves(creds: Option<Credentials>, s: seq<byte>, how: Outcome) {
    match how
    case NoOffer => forall methods: seq<byte>, rest: seq<byte> :: !IsMethods(s, methods, rest)
    case NoMethod => exists methods: seq<byte>, rest: seq<byte> :: IsMethods(s, methods, rest) && Wanted(creds) !in methods
    case NoLogin =>
      && creds.Some?
      && exists methods: seq<byte>, t: seq<byte> ::
           && IsMethods(s, methods, t) && 2 in methods
           && forall user: seq<byte>, pass: seq<byte>, rest: seq<byte> :: !IsLogin(t, user, pass, rest)
    case WrongLogin =>
      && creds.Some?
      && exists methods: seq<byte>, t: seq<byte>, user: seq<byte>, pass: seq<byte>, rest: seq<byte> ::
           && IsMethods(s, methods, t) && 2 in methods
           && IsLogin(t, user, pass, rest) && (user != creds.value.user || pass != creds.value.pass)
    case NoRequest => exists request: seq<byte> :: LetIn(creds, s, request) && forall got: Got<Request> :: !IsRequest(request, got)
    case OtherCommand =>
      exists request: seq<byte>, got: Got<Request> ::
        LetIn(creds, s, request) && IsRequest(request, got) && got.value.cmd != 1 && got.value.cmd != 2
    case Asked(got) =>
      && (got.value.cmd == 1 || got.value.cmd == 2)
      && exists request: seq<byte> :: LetIn(creds, s, request) && IsRequest(request, got)
  }

  function Answer(creds: Option<Credentials>, how: Outcome): Session {
    match how
    case NoOffer => Session([], None)
    case NoMethod => Session([5, 255], None)
    case NoLogin => Session([5, 2], None)
    case WrongLogin => Session([5, 2, 1, 1], None)
    case NoRequest => Session(Welcome(creds), None)
    case OtherCommand => Session(Welcome(creds) + [5, 7, 0, 1, 0, 0, 0, 0, 0, 0], None)
    case Asked(got) => Session(Welcome(creds), Some(got))
  }

  /** Whoever behaves in one of these ways is told just that. */
  lemma EveryClientIsAnswered(creds: Option<Credentials>, s: seq<byte>, how: Outcome)
    requires Behaves(creds, s, how)
    ensures Serve(creds, s) == Answer(creds, how)
  {
    match how
    case NoOffer => NoOfferNoAnswer(creds, s);
    case NoMethod =>
      var methods: seq<byte>, rest: seq<byte> :| IsMethods(s, methods, rest) && Wanted(creds) !in methods;
      NoMethodWillDo(creds, s, methods, rest);
    case NoLogin =>
      var methods: seq<byte>, t: seq<byte> :|
        && IsMethods(s, methods, t) && 2 in methods
        && forall user: seq<byte>, pass: seq<byte>, rest: seq<byte> :: !IsLogin(t, user, pass, rest);
      NoLoginNoAnswer(creds.value, s, methods, t);
    case WrongLogin =>
      var methods: seq<byte>, t: seq<byte>, user: seq<byte>, pass: seq<byte>, rest: seq<byte> :|
        && IsMethods(s, methods, t) && 2 in methods
        && IsLogin(t, user, pass, rest) && (user != creds.value.user || pass != creds.value.pass);
      WrongLoginIsToldSo(creds.value, s, methods, t, user, pass, rest);
    case NoRequest =>
      var request: seq<byte> :| LetIn(creds, s, request) && forall got: Got<Request> :: !IsRequest(request, got);
      NoRequestNoAnswer(creds, s, request);
    case OtherCommand =>
      var request: seq<byte>, got: Got<Request> :|
        LetIn(creds, s, request) && IsRequest(request, got) && got.value.cmd != 1 && got.value.cmd != 2;
      OtherCommandsAreRefused(creds, s, request, got);
    case Asked(got) =>
      var request: seq<byte> :| LetIn(creds, s, request) && IsRequest(request, got);
      RequestsAreHandedOver(creds, s, request, got);
  }

  lemma AfterTheOffer(creds: Credentials, s: seq<byte>, methods: seq<byte>, t: seq<byte>) returns (how: Outcome)
    requires IsMethods(s, methods, t) && 2 in methods && Negotiate(Some(creds), s).left == None
    ensures Behaves(Some(creds), s, how)
  {
    MethodsInBytes(s, methods, t);
    if UserPass(t).Ok? {
      var Got((user, pass), rest) := UserPass(t).value;
      LoginInBytes(t, user, pass, rest);
      assert IsLogin(t, user, pass, rest);
      how := WrongLogin;
    } else {
      forall user: seq<byte>, pass: seq<byte>, rest: seq<byte> ensures !IsLogin(t, user, pass, rest) {
        LoginInBytes(t, user, pass, rest);
      }
      how := NoLogin;
    }
  }

  lemma AfterTheWelcome(creds: Option<Credentials>, s: seq<byte>, request: seq<byte>) returns (how: Outcome)
    requires LetIn(creds, s, request)
    ensures Behaves(creds, s, how)
  {
    if ReadRequest(request).Ok? {
      var got := ReadRequest(request).value;
      RequestExact(request, got.value, got.rest);
      assert IsRequest(request, got);
      how := if got.value.cmd == 1 || got.value.cmd == 2 then Asked(got) else OtherCommand;
    } else {
      forall got: Got<Request> ensures !IsRequest(request, got) {
        RequestExact(request, got.value, got.rest);
      }
      how := NoRequest;
    }
  }

  /** And every client behaves in one of them. */
  lemma EveryClientBehaves(creds: Option<Credentials>, s: seq<byte>) returns (how: Outcome)
    ensures Behaves(creds, s, how)
  {
    var turn := Negotiate(creds, s);
    if turn.left.Some? {
      WelcomedIsLetIn(creds, s, turn.left.value);
      how := AfterTheWelcome(creds, s, turn.left.value);
    } else if Methods(s).Ok? {
      var Got(methods, t) := Methods(s).value;
      MethodsInBytes(s, methods, t);
      assert IsMethods(s, methods, t);
      if Wanted(creds) in methods {
        how := AfterTheOffer(creds.value, s, methods, t);
      } else {
        how := NoMethod;
      }
    } else {
      forall methods: seq<byte>, rest: seq<byte> ensures !IsMethods(s, methods, rest) {
        MethodsInBytes(s, methods, rest);
      }
      how := NoOffer;
    }
  }
}
