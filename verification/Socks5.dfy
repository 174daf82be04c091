/** The SOCKS5 wire format: what a byte string means, exactly how much of it is used, and what is answered. */
module Socks5 {
  import opened Prelude
  import opened Bytes

  const VERSION: byte := 5
  const AUTH_NONE: byte := 0
  const AUTH_USERPASS: byte := 2
  const AUTH_NO_ACCEPT: byte := 255
  const CMD_CONNECT: byte := 1
  const CMD_BIND: byte := 2
  const ATYP_IPV4: byte := 1
  const ATYP_DOMAIN: byte := 3
  const ATYP_IPV6: byte := 4
  const REP_CMD_NOT_SUPPORTED: byte := 7

  datatype ReadError = ShortInput | BadVersion | NoMethods | BadAuthVersion | BadAddrType

  /** A host as the rest of the program sees it: an IP in canonical form, or a name. */
  datatype Host = Ip(ip: seq<byte>) | Name(name: seq<byte>)

  datatype Request = Request(cmd: byte, addrType: byte, addr: Host, port: nat)

  /** A value read off the front of the input, and the input that is left. */
  datatype Got<+T> = Got(value: T, rest: seq<byte>)

  type Read<+T> = Result<Got<T>, ReadError>

  // ---------------------------------------------------------------- reading

  /** io.ReadFull. */
  function Full(s: seq<byte>, n: nat): Read<seq<byte>> {
    if |s| < n then Err(ShortInput) else Ok(Got(s[..n], s[n..]))
  }

  function Methods(s: seq<byte>): Read<seq<byte>> {
    match Full(s, 2)
    case Err(e) => Err(e)
    case Ok(Got(header, rest)) =>
      if header[0] != VERSION then Err(BadVersion)
      else if header[1] == 0 then Err(NoMethods)
      else Full(rest, header[1])
  }

  /** One length byte and that many bytes. */
  function Counted(s: seq<byte>): Read<seq<byte>> {
    match Full(s, 1)
    case Err(e) => Err(e)
    case Ok(Got(len, rest)) => Full(rest, len[0])
  }

  function UserPass(s: seq<byte>): Read<(seq<byte>, seq<byte>)> {
    match Full(s, 1)
    case Err(e) => Err(e)
    case Ok(Got(ver, s1)) =>
      if ver[0] != 1 then Err(BadAuthVersion)
      else
        match Counted(s1)
        case Err(e) => Err(e)
        case Ok(Got(user, s2)) =>
          match Counted(s2)
          case Err(e) => Err(e)
          case Ok(Got(pass, s3)) => Ok(Got((user, pass), s3))
  }

  /** An IPv6 address that embeds an IPv4 one. */
  predicate IsMapped(ip: seq<byte>) {
    && |ip| == 16
    && (forall i :: 0 <= i < 10 ==> ip[i] == 0)
    && ip[10] == 255 && ip[11] == 255
  }

  /** net.IP as text: IPv4-mapped addresses read like IPv4 ones. */
  function Canonical(ip: seq<byte>): Host {
    if IsMapped(ip) then Ip(ip[12..]) else Ip(ip)
  }

  function Address(atyp: byte, s: seq<byte>): Read<Host> {
    if atyp == ATYP_IPV4 then
      match Full(s, 4)
      case Err(e) => Err(e)
      case Ok(Got(ip, rest)) => Ok(Got(Canonical(ip), rest))
    else if atyp == ATYP_DOMAIN then
      match Counted(s)
      case Err(e) => Err(e)
      case Ok(Got(name, rest)) => Ok(Got(Name(name), rest))
    else if atyp == ATYP_IPV6 then
      match Full(s, 16)
      case Err(e) => Err(e)
      case Ok(Got(ip, rest)) => Ok(Got(Canonical(ip), rest))
    else Err(BadAddrType)
  }

  /** binary.BigEndian.Uint16. */
  function PortOf(high: int, low: int): int {
    256 * high + low
  }

  function ReadRequest(s: seq<byte>): Read<Request> {
    match Full(s, 4)
    case Err(e) => Err(e)
    case Ok(Got(header, s1)) =>
      if header[0] != VERSION then Err(BadVersion)
      else
        match Address(header[3], s1)
        case Err(e) => Err(e)
        case Ok(Got(addr, s2)) =>
          match Full(s2, 2)
          case Err(e) => Err(e)
          case Ok(Got(port, s3)) => Ok(Got(Request(header[1], header[3], addr, PortOf(port[0], port[1])), s3))
  }

  // ---------------------------------------------------------------- writing

  datatype RawAddr = V4(ip: seq<byte>) | Domain(name: seq<byte>) | V6(ip: seq<byte>)
  {
    ghost predicate Valid() {
      match this
      case V4(ip) => |ip| == 4
      case Domain(name) => |name| < 256
      case V6(ip) => |ip| == 16
    }

    function Type(): byte {
      match this case V4(_) => ATYP_IPV4 case Domain(_) => ATYP_DOMAIN case V6(_) => ATYP_IPV6
    }

    function Host(): Host {
      match this case V4(ip) => Canonical(ip) case Domain(name) => Name(name) case V6(ip) => Canonical(ip)
    }

    function Code(): seq<byte>
      requires Valid()
    {
      match this case V4(ip) => ip case Domain(name) => [|name|] + name case V6(ip) => ip
    }
  }

  /** Section 3 of RFC 1928. */
  function MethodsCode(methods: seq<byte>): seq<byte>
    requires |methods| < 256
  {
    [VERSION, |methods|] + methods
  }

  /** Section 2 of RFC 1929. */
  function UserPassCode(user: seq<byte>, pass: seq<byte>): seq<byte>
    requires |user| < 256 && |pass| < 256
  {
    [1, |user|] + user + [|pass|] + pass
  }

  function PortCode(port: nat): seq<byte>
    requires port < 65536
  {
    [port / 256, port % 256]
  }

  /** Section 4 of RFC 1928; the reserved byte may be anything here. */
  function RequestCode(cmd: byte, rsv: byte, addr: RawAddr, port: nat): seq<byte>
    requires addr.Valid() && port < 65536
  {
    [VERSION, cmd, rsv, addr.Type()] + addr.Code() + PortCode(port)
  }

  /** A bound TCP address; other kinds of address count as none. */
  datatype TcpAddr = TcpAddr(ip: Option<seq<byte>>, port: int)

  function BoundIp(bind: Option<TcpAddr>): seq<byte> {
    if bind.Some? && bind.value.ip.Some? then bind.value.ip.value else [0, 0, 0, 0]
  }

  function BoundPort(bind: Option<TcpAddr>): nat {
    if bind.Some? then bind.value.port % 65536 else 0
  }

  /** Section 6 of RFC 1928. */
  function Reply(rep: byte, bind: Option<TcpAddr>): seq<byte> {
    var ip := BoundIp(bind);
    [VERSION, rep, 0] +
    (if |ip| == 4 then [ATYP_IPV4] + ip
     else if IsMapped(ip) then [ATYP_IPV4] + ip[12..]
     else if |ip| == 16 then [ATYP_IPV6] + ip
     else [ATYP_IPV6]) +
    PortCode(BoundPort(bind))
  }

  // ---------------------------------------------------------------- exactness

  lemma FullExact(a: seq<byte>, b: seq<byte>)
    ensures Full(a + b, |a|) == Ok(Got(a, b))
  {
    assert (a + b)[..|a|] == a && (a + b)[|a|..] == b;
  }

  lemma CountedExact(a: seq<byte>, b: seq<byte>)
    requires |a| < 256
    ensures Counted([|a|] + a + b) == Ok(Got(a, b))
  {
    assert [|a|] + a + b == [|a|] + (a + b);
    FullExact([|a|], a + b);
    FullExact(a, b);
  }

  /** What is left after a counted string was read, and what was there before. */
  lemma CountedParts(s: seq<byte>)
    ensures Counted(s).Ok? ==>
              var Got(a, b) := Counted(s).value;
              |a| < 256 && s == [|a|] + a + b
  {
  }

  /** The methods read are m with r left exactly when the input is the code of m followed by r. */
  lemma MethodsExact(s: seq<byte>, m: seq<byte>, r: seq<byte>)
    ensures Methods(s) == Ok(Got(m, r)) <==> 0 < |m| < 256 && s == MethodsCode(m) + r
  {
    if 0 < |m| < 256 && s == MethodsCode(m) + r {
      assert s == [VERSION, |m|] + (m + r);
      FullExact([VERSION, |m|], m + r);
      FullExact(m, r);
    }
    if Methods(s) == Ok(Got(m, r)) {
      assert s == s[..2] + (m + r);
      assert s[..2] == [VERSION, |m|];
    }
  }

  lemma UserPassDecodes(u: seq<byte>, p: seq<byte>, r: seq<byte>)
    requires |u| < 256 && |p| < 256
    ensures UserPass(UserPassCode(u, p) + r) == Ok(Got((u, p), r))
  {
    var s2 := [|p|] + p + r;
    var s1 := [|u|] + u + s2;
    assert UserPassCode(u, p) + r == [1] + s1;
    FullExact([1], s1);
    CountedExact(u, s2);
    CountedExact(p, r);
  }

  lemma LoginRegroups(m: byte, u: seq<byte>, n: byte, p: seq<byte>, r: seq<byte>)
    ensures [1] + ([m] + u + ([n] + p + r)) == ([1, m] + u + [n] + p) + r
  {
  }

  lemma UserPassParts(s: seq<byte>)
    requires UserPass(s).Ok?
    ensures var Got((u, p), r) := UserPass(s).value;
            |u| < 256 && |p| < 256 && s == UserPassCode(u, p) + r
  {
    var s1 := s[1..];
    assert s == [1] + s1;
    CountedParts(s1);
    var Got(u, s2) := Counted(s1).value;
    CountedParts(s2);
    var Got(p, r) := Counted(s2).value;
    LoginRegroups(|u|, u, |p|, p, r);
  }

  lemma UserPassExact(s: seq<byte>, u: seq<byte>, p: seq<byte>, r: seq<byte>)
    ensures UserPass(s) == Ok(Got((u, p), r)) <==> |u| < 256 && |p| < 256 && s == UserPassCode(u, p) + r
  {
    if UserPass(s) == Ok(Got((u, p), r)) {
      UserPassParts(s);
    } else if |u| < 256 && |p| < 256 {
      UserPassDecodes(u, p, r);
    }
  }

  lemma PortSplits(high: int, low: int, port: nat)
    requires 0 <= high < 256 && 0 <= low < 256
    ensures PortOf(high, low) == port <==> high == port / 256 && low == port % 256
    ensures PortOf(high, low) < 65536
  {
  }

  lemma PortExact(s: seq<byte>, port: nat, r: seq<byte>)
    requires |s| >= 2
    ensures PortOf(s[0], s[1]) == port && s[2..] == r <==> port < 65536 && s == PortCode(port) + r
  {
    PortSplits(s[0], s[1], port);
    assert s == [s[0], s[1]] + s[2..];
  }

  lemma AddressOfCode(addr: RawAddr, r: seq<byte>)
    requires addr.Valid()
    ensures Address(addr.Type(), addr.Code() + r) == Ok(Got(addr.Host(), r))
  {
    match addr
    case V4(ip) => FullExact(ip, r);
    case Domain(name) => CountedExact(name, r);
    case V6(ip) => FullExact(ip, r);
  }

  /** Every address read was written by someone: the raw address is recovered. */
  lemma AddressParts(atyp: byte, s: seq<byte>) returns (addr: RawAddr)
    requires Address(atyp, s).Ok?
    ensures addr.Valid() && addr.Type() == atyp && addr.Host() == Address(atyp, s).value.value
    ensures s == addr.Code() + Address(atyp, s).value.rest
  {
    if atyp == ATYP_IPV4 {
      addr := V4(s[..4]);
    } else if atyp == ATYP_DOMAIN {
      CountedParts(s);
      addr := Domain(Counted(s).value.value);
    } else {
      addr := V6(s[..16]);
    }
  }

  ghost predicate Encodes(s: seq<byte>, req: Request, r: seq<byte>, rsv: byte, addr: RawAddr) {
    && addr.Valid() && req.port < 65536
    && req.addrType == addr.Type() && req.addr == addr.Host()
    && s == RequestCode(req.cmd, rsv, addr, req.port) + r
  }

  /** The pieces of a request and what follows it, as its reader takes them. */
  lemma RequestPieces(header: seq<byte>, code: seq<byte>, port: seq<byte>, r: seq<byte>)
    requires |header| == 4
    ensures var s := header + code + port + r;
            |s| >= 4 && s[..4] == header && s[4..] == code + (port + r)
    ensures Full(header + code + port + r, 4) == Ok(Got(header, code + (port + r)))
  {
    var s := header + code + port + r;
    assert s == header + (code + (port + r));
    FullExact(header, code + (port + r));
  }

  lemma RequestDecodes(s: seq<byte>, req: Request, r: seq<byte>, rsv: byte, addr: RawAddr)
    requires Encodes(s, req, r, rsv, addr)
    ensures ReadRequest(s) == Ok(Got(req, r))
  {
    var header := [VERSION, req.cmd, rsv, addr.Type()];
    var s2 := PortCode(req.port) + r;
    RequestPieces(header, addr.Code(), PortCode(req.port), r);
    AddressOfCode(addr, s2);
    PortExact(s2, req.port, r);
    FullExact(PortCode(req.port), r);
  }

  lemma RequestRegroups(s: seq<byte>, header: seq<byte>, code: seq<byte>, port: seq<byte>, r: seq<byte>)
    requires |s| >= 4 && s[..4] == header && s[4..] == code + (port + r)
    ensures s == header + code + port + r
  {
    assert s == s[..4] + s[4..];
  }

  lemma RequestParts(s: seq<byte>) returns (rsv: byte, addr: RawAddr)
    requires ReadRequest(s).Ok?
    ensures Encodes(s, ReadRequest(s).value.value, ReadRequest(s).value.rest, rsv, addr)
  {
    var Got(req, r) := ReadRequest(s).value;
    rsv := s[2];
    addr := AddressParts(s[3], s[4..]);
    PortExact(Address(s[3], s[4..]).value.rest, req.port, r);
    RequestRegroups(s, [VERSION, req.cmd, rsv, addr.Type()], addr.Code(), PortCode(req.port), r);
  }

  /** A request is read exactly from its codes: any raw address and reserved byte that stand for it. */
  lemma RequestExact(s: seq<byte>, req: Request, r: seq<byte>)
    ensures ReadRequest(s) == Ok(Got(req, r)) <==> exists rsv: byte, addr: RawAddr :: Encodes(s, req, r, rsv, addr)
  {
    if ReadRequest(s) == Ok(Got(req, r)) {
      var rsv, addr := RequestParts(s);
      assert Encodes(s, req, r, rsv, addr);
    }
    if exists rsv: byte, addr: RawAddr :: Encodes(s, req, r, rsv, addr) {
      var rsv: byte, addr: RawAddr :| Encodes(s, req, r, rsv, addr);
      RequestDecodes(s, req, r, rsv, addr);
    }
  }

  /** The bound IP, if there is one, has one of the two sizes an IP can have. */
  ghost predicate WellSized(bind: Option<TcpAddr>) {
    bind.None? || bind.value.ip.None? || |bind.value.ip.value| == 4 || |bind.value.ip.value| == 16
  }

  /** The raw address a reply carries. */
  function ReplyAddr(ip: seq<byte>): RawAddr {
    if |ip| == 4 then V4(ip) else if IsMapped(ip) then V4(ip[12..]) else V6(ip)
  }

  /**
   Reading a reply as a request gives back its code, the bound address up to
   IPv4-mapped form and the port modulo 2^16, exactly when the bound IP has one
   of the two sizes an IP can have.
   */
  lemma ReplyInverse(rep: byte, bind: Option<TcpAddr>)
    ensures var a := ReplyAddr(BoundIp(bind));
            ReadRequest(Reply(rep, bind)) == Ok(Got(Request(rep, a.Type(), Canonical(BoundIp(bind)), BoundPort(bind)), []))
            <==> WellSized(bind)
  {
    var ip, port := BoundIp(bind), BoundPort(bind);
    var s := Reply(rep, bind);
    var a := ReplyAddr(ip);
    if WellSized(bind) {
      assert s == RequestCode(rep, 0, a, port) + [];
      assert a.Host() == Canonical(ip);
      RequestDecodes(s, Request(rep, a.Type(), Canonical(ip), port), [], 0, a);
    } else {
      assert |s| == 6 && s[3] == ATYP_IPV6;
      assert Full(s[4..], 16).Err?;
    }
  }

  // ---------------------------------------------------------------- extension

  lemma FullExtends(s: seq<byte>, n: nat, x: seq<byte>)
    requires Full(s, n).Ok?
    ensures Full(s + x, n) == Ok(Got(Full(s, n).value.value, Full(s, n).value.rest + x))
  {
    assert (s + x)[..n] == s[..n] && (s + x)[n..] == s[n..] + x;
  }

  lemma MethodsExtend(s: seq<byte>, x: seq<byte>)
    requires Methods(s).Ok?
    ensures Methods(s + x) == Ok(Got(Methods(s).value.value, Methods(s).value.rest + x))
  {
    FullExtends(s, 2, x);
    FullExtends(s[2..], s[1], x);
  }

  lemma CountedExtends(s: seq<byte>, x: seq<byte>)
    requires Counted(s).Ok?
    ensures Counted(s + x) == Ok(Got(Counted(s).value.value, Counted(s).value.rest + x))
  {
    FullExtends(s, 1, x);
    FullExtends(s[1..], s[0], x);
  }

  lemma UserPassExtends(s: seq<byte>, x: seq<byte>)
    requires UserPass(s).Ok?
    ensures UserPass(s + x) == Ok(Got(UserPass(s).value.value, UserPass(s).value.rest + x))
  {
    FullExtends(s, 1, x);
    CountedExtends(s[1..], x);
    CountedExtends(Counted(s[1..]).value.rest, x);
  }

  lemma AddressExtends(atyp: byte, s: seq<byte>, x: seq<byte>)
    requires Address(atyp, s).Ok?
    ensures Address(atyp, s + x) == Ok(Got(Address(atyp, s).value.value, Address(atyp, s).value.rest + x))
  {
    if atyp == ATYP_IPV4 {
      FullExtends(s, 4, x);
    } else if atyp == ATYP_DOMAIN {
      CountedExtends(s, x);
    } else {
      FullExtends(s, 16, x);
    }
  }

  lemma RequestExtends(s: seq<byte>, x: seq<byte>)
    requires ReadRequest(s).Ok?
    ensures ReadRequest(s + x) == Ok(Got(ReadRequest(s).value.value, ReadRequest(s).value.rest + x))
  {
    FullExtends(s, 4, x);
    AddressExtends(s[3], s[4..], x);
    FullExtends(Address(s[3], s[4..]).value.rest, 2, x);
  }

  // ---------------------------------------------------------------- the whole handshake

  datatype Credentials = Credentials(user: seq<byte>, pass: seq<byte>)

  /** What negotiate sends, and the input it leaves: none when the client is turned away. */
  datatype Turn = Turn(sent: seq<byte>, left: Option<seq<byte>>)

  /** What a connection is sent before the hand-over, and what is handed over: the request and the unread input. */
  datatype Session = Session(sent: seq<byte>, handed: Option<Got<Request>>)

  function Required(creds: Option<Credentials>): byte {
    if creds.Some? then AUTH_USERPASS else AUTH_NONE
  }

  /** The login that follows the choice of a method. */
  function Login(creds: Option<Credentials>, s: seq<byte>): Turn {
    if creds.None? then Turn([], Some(s))
    else
      match UserPass(s)
      case Err(_) => Turn([], None)
      case Ok(Got((user, pass), rest)) =>
        if user == creds.value.user && pass == creds.value.pass then Turn([1, 0], Some(rest))
        else Turn([1, 1], None)
  }

  function Negotiate(creds: Option<Credentials>, s: seq<byte>): Turn {
    match Methods(s)
    case Err(_) => Turn([], None)
    case Ok(Got(methods, rest)) =>
      if Required(creds) !in methods then Turn([VERSION, AUTH_NO_ACCEPT], None)
      else
        var login := Login(creds, rest);
        Turn([VERSION, Required(creds)] + login.sent, login.left)
  }

  /** The request after the login; other commands than connect and bind are refused. */
  function Ask(s: seq<byte>): Session {
    match ReadRequest(s)
    case Err(_) => Session([], None)
    case Ok(got) =>
      if got.value.cmd == CMD_CONNECT || got.value.cmd == CMD_BIND then Session([], Some(got))
      else Session(Reply(REP_CMD_NOT_SUPPORTED, None), None)
  }

  /** A SOCKS5 connection up to the hand-over. */
  function Serve(creds: Option<Credentials>, s: seq<byte>): Session {
    var turn := Negotiate(creds, s);
    if turn.left.None? then Session(turn.sent, None)
    else
      var ask := Ask(turn.left.value);
      Session(turn.sent + ask.sent, ask.handed)
  }

  lemma ServeTurnsAway(creds: Option<Credentials>, s: seq<byte>)
    requires Negotiate(creds, s).left.None?
    ensures Serve(creds, s) == Session(Negotiate(creds, s).sent, None)
  {
  }

  lemma ServeLetsIn(creds: Option<Credentials>, s: seq<byte>, left: seq<byte>)
    requires Negotiate(creds, s).left == Some(left)
    ensures Serve(creds, s) == Session(Negotiate(creds, s).sent + Ask(left).sent, Ask(left).handed)
  {
  }

  /** The bytes that log a client in; credentials over 255 bytes have none. */
  ghost predicate LogsIn(creds: Option<Credentials>, code: seq<byte>) {
    if creds.None? then code == []
    else |creds.value.user| < 256 && |creds.value.pass| < 256 && code == UserPassCode(creds.value.user, creds.value.pass)
  }

  lemma LoginExact(creds: Option<Credentials>, s: seq<byte>, rest: seq<byte>)
    ensures Login(creds, s).left == Some(rest) <==> exists code: seq<byte> :: LogsIn(creds, code) && s == code + rest
    ensures Login(creds, s).left == Some(rest) ==> Login(creds, s).sent == if creds.Some? then [1, 0] else []
  {
    if creds.None? {
      assert LogsIn(creds, []) && [] + rest == rest;
    } else {
      var user, pass := creds.value.user, creds.value.pass;
      UserPassExact(s, user, pass, rest);
      if |user| < 256 && |pass| < 256 {
        assert LogsIn(creds, UserPassCode(user, pass));
      }
    }
  }

  ghost predicate Negotiates(creds: Option<Credentials>, s: seq<byte>, methods: seq<byte>, code: seq<byte>, rest: seq<byte>) {
    && 0 < |methods| < 256 && Required(creds) in methods
    && LogsIn(creds, code)
    && s == MethodsCode(methods) + (code + rest)
  }

  /** An offer of the required method and the right login, in front of `rest`. */
  ghost predicate IsOffer(creds: Option<Credentials>, s: seq<byte>, rest: seq<byte>) {
    exists methods: seq<byte>, code: seq<byte> :: Negotiates(creds, s, methods, code, rest)
  }

  /** Negotiation succeeds with `rest` left exactly on an offer of the required method, the right login, and `rest`. */
  lemma NegotiateExact(creds: Option<Credentials>, s: seq<byte>, rest: seq<byte>)
    ensures Negotiate(creds, s).left == Some(rest) <==> IsOffer(creds, s, rest)
    ensures Negotiate(creds, s).left == Some(rest) ==> Negotiate(creds, s).sent == Greeting(creds)
  {
    if Negotiate(creds, s).left == Some(rest) {
      var Got(methods, s1) := Methods(s).value;
      MethodsExact(s, methods, s1);
      LoginExact(creds, s1, rest);
      var code: seq<byte> :| LogsIn(creds, code) && s1 == code + rest;
      assert Negotiates(creds, s, methods, code, rest);
    }
    if IsOffer(creds, s, rest) {
      var methods: seq<byte>, code: seq<byte> :| Negotiates(creds, s, methods, code, rest);
      MethodsExact(s, methods, code + rest);
      LoginExact(creds, code + rest, rest);
    }
  }

  /** What a client that is let in gets to see. */
  function Greeting(creds: Option<Credentials>): seq<byte> {
    [VERSION, Required(creds)] + (if creds.Some? then [1, 0] else [])
  }

  /** A well-formed client: offer, login, request, and then any payload. */
  ghost predicate WellFormed(creds: Option<Credentials>, s: seq<byte>, got: Got<Request>) {
    && (got.value.cmd == CMD_CONNECT || got.value.cmd == CMD_BIND)
    && exists request: seq<byte> :: IsOffer(creds, s, request) && IsRequest(request, got)
  }

  ghost predicate IsRequest(request: seq<byte>, got: Got<Request>) {
    exists rsv: byte, addr: RawAddr :: Encodes(request, got.value, got.rest, rsv, addr)
  }

  lemma AskExact(request: seq<byte>)
    requires Ask(request).handed.Some?
    ensures Ask(request).sent == []
    ensures IsRequest(request, Ask(request).handed.value)
    ensures Ask(request).handed.value.value.cmd in {CMD_CONNECT, CMD_BIND}
  {
    var got := Ask(request).handed.value;
    RequestExact(request, got.value, got.rest);
  }

  /** Whoever is handed over has negotiated, and then asked. */
  lemma NegotiatesFirst(creds: Option<Credentials>, s: seq<byte>) returns (request: seq<byte>)
    requires Serve(creds, s).handed.Some?
    ensures Negotiate(creds, s).left == Some(request)
    ensures Serve(creds, s) == Session(Negotiate(creds, s).sent + Ask(request).sent, Ask(request).handed)
  {
    request := Negotiate(creds, s).left.value;
    ServeLetsIn(creds, s, request);
  }

  lemma ServedIsWellFormed(creds: Option<Credentials>, s: seq<byte>)
    ensures Serve(creds, s).handed.Some? ==> WellFormed(creds, s, Serve(creds, s).handed.value)
    ensures Serve(creds, s).handed.Some? ==> Serve(creds, s).sent == Greeting(creds)
  {
    if Serve(creds, s).handed.Some? {
      var request := NegotiatesFirst(creds, s);
      NegotiateExact(creds, s, request);
      AskedWell(creds, s, request);
      assert Greeting(creds) + [] == Greeting(creds);
    }
  }

  lemma AskedWell(creds: Option<Credentials>, s: seq<byte>, request: seq<byte>)
    requires IsOffer(creds, s, request) && Ask(request).handed.Some?
    ensures Ask(request).sent == [] && WellFormed(creds, s, Ask(request).handed.value)
  {
    AskExact(request);
    RequestAfterOffer(creds, s, request, Ask(request).handed.value);
  }

  lemma RequestAfterOffer(creds: Option<Credentials>, s: seq<byte>, request: seq<byte>, got: Got<Request>)
    requires IsOffer(creds, s, request) && IsRequest(request, got)
    requires got.value.cmd == CMD_CONNECT || got.value.cmd == CMD_BIND
    ensures WellFormed(creds, s, got)
  {
  }

  lemma WellFormedIsServed(creds: Option<Credentials>, s: seq<byte>, got: Got<Request>)
    requires WellFormed(creds, s, got)
    ensures Serve(creds, s).handed == Some(got)
  {
    var request: seq<byte> :| IsOffer(creds, s, request) && IsRequest(request, got);
    NegotiateExact(creds, s, request);
    RequestExact(request, got.value, got.rest);
  }

  /**
   A connection is handed over with a request and unread bytes exactly when its
   client was well-formed and sent that request and, after it, those bytes.
   Until then it has been sent the greeting and nothing else.
   */
  lemma ServedExactlyWhenWellFormed(creds: Option<Credentials>, s: seq<byte>, got: Got<Request>)
    ensures Serve(creds, s).handed == Some(got) <==> WellFormed(creds, s, got)
    ensures Serve(creds, s).handed == Some(got) ==> Serve(creds, s).sent == Greeting(creds)
  {
    if Serve(creds, s).handed == Some(got) {
      ServedIsWellFormed(creds, s);
    }
    if WellFormed(creds, s, got) {
      WellFormedIsServed(creds, s, got);
    }
  }

  /** Every strict prefix of what a reader takes is too short for it. */
  lemma MessagePrefixesAreRejected(s: seq<byte>, n: nat)
    requires n <= |s|
    ensures Methods(s).Ok? && n < |s| - |Methods(s).value.rest| ==> Methods(s[..n]).Err?
    ensures UserPass(s).Ok? && n < |s| - |UserPass(s).value.rest| ==> UserPass(s[..n]).Err?
    ensures ReadRequest(s).Ok? && n < |s| - |ReadRequest(s).value.rest| ==> ReadRequest(s[..n]).Err?
  {
    var head, tail := s[..n], s[n..];
    assert s == head + tail;
    if Methods(head).Ok? {
      MethodsExtend(head, tail);
    }
    if UserPass(head).Ok? {
      UserPassExtends(head, tail);
    }
    if ReadRequest(head).Ok? {
      RequestExtends(head, tail);
    }
  }

  lemma NegotiateExtends(creds: Option<Credentials>, s: seq<byte>, x: seq<byte>)
    requires Negotiate(creds, s).left.Some?
    ensures Negotiate(creds, s + x).left == Some(Negotiate(creds, s).left.value + x)
  {
    MethodsExtend(s, x);
    if creds.Some? {
      UserPassExtends(Methods(s).value.rest, x);
    }
  }

  lemma ServeExtends(creds: Option<Credentials>, s: seq<byte>, x: seq<byte>)
    ensures var handed := Serve(creds, s).handed;
            handed.Some? ==> Serve(creds, s + x).handed == Some(Got(handed.value.value, handed.value.rest + x))
  {
    if Serve(creds, s).handed.Some? {
      NegotiateExtends(creds, s, x);
      RequestExtends(Negotiate(creds, s).left.value, x);
    }
  }

  /** No strict prefix of what a served request took is served: every byte of a message is waited for. */
  lemma StrictPrefixesAreRejected(creds: Option<Credentials>, head: seq<byte>, tail: seq<byte>)
    ensures var handed := Serve(creds, head + tail).handed;
            handed.Some? && |tail| > |handed.value.rest| ==> Serve(creds, head).handed.None?
  {
    ServeExtends(creds, head, tail);
  }
}
