/** The dynamic forwarder's side of a SOCKS5 connection: buffered reading, peeking, and the handshake in sequence. */
module Dynamic {
  import opened Prelude
  import opened Bytes
  import opened Socks5

  /** A TCP connection: what the peer will have sent before it ends its side, and what it was sent. */
  class Conn {
    var incoming: seq<byte>
    var sent: seq<byte>
    var isOpen: bool

    constructor (incoming: seq<byte>)
      ensures this.incoming == incoming && sent == [] && isOpen
    {
      this.incoming, sent, isOpen := incoming, [], true;
    }

    /** One read of the socket: at least a byte, and as many as have arrived; none at the end. */
    method Receive() returns (chunk: seq<byte>)
      modifies this`incoming
      ensures chunk + incoming == old(incoming)
      ensures chunk == [] <==> old(incoming) == []
    {
      if incoming == [] {
        return [];
      }
      var n: nat :| 0 < n <= |incoming|;
      chunk, incoming := incoming[..n], incoming[n..];
    }

    method Write(p: seq<byte>)
      modifies this`sent
      ensures sent == old(sent) + p
    {
      sent := sent + p;
    }

    method Close()
      modifies this`isOpen
      ensures !isOpen
    {
      isOpen := false;
    }
  }

  /** What a reader made of the input: the value and the rest the specification names, or its error. */
  predicate Follows<T(==)>(want: Read<T>, got: Result<T, ReadError>, left: seq<byte>) {
    match want
    case Ok(Got(v, rest)) => got == Ok(v) && left == rest
    case Err(e) => got == Err(e)
  }

  /** bufferedConn: reads go through a buffer, writes straight to the connection. */
  class BufferedConn {
    const conn: Conn
    var buf: seq<byte>

    constructor (conn: Conn)
      ensures this.conn == conn && buf == []
    {
      this.conn := conn;
      buf := [];
    }

    /** Everything still to be read, buffered or not. */
    function Unread(): seq<byte>
      reads this, conn
    {
      buf + conn.incoming
    }

    method Fill()
      requires buf == []
      modifies this`buf, conn`incoming
      ensures Unread() == old(Unread())
      ensures buf == [] <==> old(Unread()) == []
    {
      buf := conn.Receive();
    }

    /** Looking at the first byte takes nothing. */
    method Peek() returns (first: Option<byte>)
      modifies this`buf, conn`incoming
      ensures Unread() == old(Unread())
      ensures first == if Unread() == [] then None else Some(Unread()[0])
    {
      if buf == [] {
        Fill();
      }
      first := if buf == [] then None else Some(buf[0]);
    }

    /** One read into p[at..]: what is buffered, up to the space there is; nothing at the end of the input. */
    method Read(p: array<byte>, at: nat) returns (n: nat)
      requires at < p.Length
      modifies this`buf, conn`incoming, p
      ensures n <= p.Length - at && n <= |old(Unread())|
      ensures n == 0 <==> old(Unread()) == []
      ensures p[..at] == old(p[..at]) && p[at..at + n] == old(Unread())[..n]
      ensures Unread() == old(Unread())[n..]
    {
      if buf == [] {
        Fill();
      }
      ghost var all := Unread();
      n := Min(p.Length - at, |buf|);
      forall i | 0 <= i < n {
        p[at + i] := buf[i];
      }
      buf := buf[n..];
      assert all[..n] == p[at..at + n];
    }

    /** io.ReadFull: exactly p's length, or failure with everything there was consumed. */
    method ReadFull(p: array<byte>) returns (ok: bool)
      modifies this`buf, conn`incoming, p
      ensures ok == (|old(Unread())| >= p.Length)
      ensures ok ==> p[..] == old(Unread())[..p.Length] && Unread() == old(Unread())[p.Length..]
      ensures !ok ==> Unread() == []
    {
      var at := 0;
      ghost var all := Unread();
      while at < p.Length
        invariant at <= p.Length && at <= |all|
        invariant p[..at] == all[..at]
        invariant Unread() == all[at..]
      {
        var n := Read(p, at);
        if n == 0 {
          return false;
        }
        assert p[..at + n] == p[..at] + p[at..at + n];
        assert all[..at + n] == all[..at] + all[at..][..n];
        at := at + n;
      }
      return true;
    }

    /** The next n bytes, in a buffer of their own. */
    method Take(n: nat) returns (r: Result<seq<byte>, ReadError>)
      modifies this`buf, conn`incoming
      ensures Follows(Full(old(Unread()), n), r, Unread())
    {
      var p := new byte[n](_ => 0);
      var ok := ReadFull(p);
      if !ok {
        return Err(ShortInput);
      }
      return Ok(p[..]);
    }

    method ReadMethodSelection() returns (r: Result<seq<byte>, ReadError>)
      modifies this`buf, conn`incoming
      ensures Follows(Methods(old(Unread())), r, Unread())
    {
      var header := Take(2);
      if header.Err? {
        return Err(header.error);
      }
      if header.value[0] != VERSION {
        return Err(BadVersion);
      }
      var nMethods := header.value[1];
      if nMethods == 0 {
        return Err(NoMethods);
      }
      r := Take(nMethods);
    }

    method ReadUsernamePassword() returns (r: Result<(seq<byte>, seq<byte>), ReadError>)
      modifies this`buf, conn`incoming
      ensures Follows(UserPass(old(Unread())), r, Unread())
    {
      var ver := Take(1);
      if ver.Err? {
        return Err(ver.error);
      }
      if ver.value[0] != 1 {
        return Err(BadAuthVersion);
      }
      var uLen := Take(1);
      if uLen.Err? {
        return Err(uLen.error);
      }
      var uName := Take(uLen.value[0]);
      if uName.Err? {
        return Err(uName.error);
      }
      var pLen := Take(1);
      if pLen.Err? {
        return Err(pLen.error);
      }
      var passwd := Take(pLen.value[0]);
      if passwd.Err? {
        return Err(passwd.error);
      }
      return Ok((uName.value, passwd.value));
    }

    method ReadAddress(atyp: byte) returns (r: Result<Host, ReadError>)
      modifies this`buf, conn`incoming
      ensures Follows(Address(atyp, old(Unread())), r, Unread())
    {
      if atyp == ATYP_IPV4 {
        var addr := Take(4);
        if addr.Err? {
          return Err(addr.error);
        }
        return Ok(Canonical(addr.value));
      } else if atyp == ATYP_DOMAIN {
        var dLen := Take(1);
        if dLen.Err? {
          return Err(dLen.error);
        }
        var domain := Take(dLen.value[0]);
        if domain.Err? {
          return Err(domain.error);
        }
        return Ok(Name(domain.value));
      } else if atyp == ATYP_IPV6 {
        var addr := Take(16);
        if addr.Err? {
          return Err(addr.error);
        }
        return Ok(Canonical(addr.value));
      }
      return Err(BadAddrType);
    }

    method ReadRequest() returns (r: Result<Request, ReadError>)
      modifies this`buf, conn`incoming
      ensures Follows(Socks5.ReadRequest(old(Unread())), r, Unread())
    {
      var header := Take(4);
      if header.Err? {
        return Err(header.error);
      }
      if header.value[0] != VERSION {
        return Err(BadVersion);
      }
      var addr := ReadAddress(header.value[3]);
      if addr.Err? {
        return Err(addr.error);
      }
      var portBuf := Take(2);
      if portBuf.Err? {
        return Err(portBuf.error);
      }
      return Ok(Request(header.value[1], header.value[3], addr.value, PortOf(portBuf.value[0], portBuf.value[1])));
    }

    method WriteReply(rep: byte, bindAddr: Option<TcpAddr>)
      modifies conn`sent
      ensures conn.sent == old(conn.sent) + Reply(rep, bindAddr)
    {
      var ip: Option<seq<byte>>, port: int := None, 0;
      if bindAddr.Some? {
        ip, port := bindAddr.value.ip, bindAddr.value.port;
      }
      var addr := if ip.None? then [0, 0, 0, 0] else ip.value;
      var reply := [VERSION, rep, 0];
      if |addr| == 4 {
        reply := reply + [ATYP_IPV4];
        reply := reply + addr;
      } else if IsMapped(addr) {
        reply := reply + [ATYP_IPV4];
        reply := reply + addr[12..];
      } else {
        reply := reply + [ATYP_IPV6];
        reply := reply + (if |addr| == 16 then addr else []);
      }
      reply := reply + PortCode(port % 65536);
      conn.Write(reply);
    }
  }

  /** What became of a connection: closed here, left to the HTTP side, or handed over with a request. */
  datatype Fate = Closed | Http | Handed(req: Request)

  /** A turn of the handshake ends as it should: the client let in with the rest unread, or turned away. */
  predicate Leaves(turn: Turn, ok: bool, left: seq<byte>) {
    ok == turn.left.Some? && (ok ==> left == turn.left.value)
  }

  /** A connection ends as a session says: closed, or handed over with the request and the unread rest. */
  predicate EndsAs(session: Session, fate: Fate, left: seq<byte>) {
    match session.handed
    case None => fate == Closed
    case Some(got) => fate == Handed(got.value) && left == got.rest
  }

  class DynamicForwarder {
    const creds: Option<Credentials>
    var activeCnt: int
    var totalCnt: int

    constructor (creds: Option<Credentials>)
      ensures this.creds == creds && activeCnt == 0 && totalCnt == 0
    {
      this.creds := creds;
      activeCnt, totalCnt := 0, 0;
    }

    /** The login, when one is required. */
    method Authenticate(c: BufferedConn) returns (ok: bool)
      modifies c`buf, c.conn`incoming, c.conn`sent
      ensures c.conn.sent == old(c.conn.sent) + Login(creds, old(c.Unread())).sent
      ensures Leaves(Login(creds, old(c.Unread())), ok, c.Unread())
    {
      if creds.None? {
        return true;
      }
      var login := c.ReadUsernamePassword();
      if login.Err? {
        return false;
      }
      if login.value.0 != creds.value.user || login.value.1 != creds.value.pass {
        c.conn.Write([1, 1]);
        return false;
      }
      c.conn.Write([1, 0]);
      return true;
    }

    method Negotiate(c: BufferedConn) returns (ok: bool)
      modifies c`buf, c.conn`incoming, c.conn`sent
      ensures c.conn.sent == old(c.conn.sent) + Socks5.Negotiate(creds, old(c.Unread())).sent
      ensures Leaves(Socks5.Negotiate(creds, old(c.Unread())), ok, c.Unread())
    {
      ghost var before := c.conn.sent;
      var methods := c.ReadMethodSelection();
      if methods.Err? {
        return false;
      }
      var requiredMethod := AUTH_NONE;
      if creds.Some? {
        requiredMethod := AUTH_USERPASS;
      }
      var offered := false;
      for i := 0 to |methods.value|
        invariant offered <==> requiredMethod in methods.value[..i]
      {
        if methods.value[i] == requiredMethod {
          offered := true;
        }
      }
      assert methods.value[..|methods.value|] == methods.value;
      if !offered {
        c.conn.Write([VERSION, AUTH_NO_ACCEPT]);
        return false;
      }
      c.conn.Write([VERSION, requiredMethod]);
      ghost var login := Login(creds, c.Unread());
      ok := Authenticate(c);
      ConcatAssociates(before, [VERSION, requiredMethod], login.sent);
    }

    /** The request of a client that was let in: handed over, or refused. */
    method HandleRequest(c: BufferedConn) returns (fate: Fate)
      requires c.conn.isOpen
      modifies c`buf, c.conn
      ensures c.conn.sent == old(c.conn.sent) + Ask(old(c.Unread())).sent
      ensures EndsAs(Ask(old(c.Unread())), fate, c.Unread())
      ensures c.conn.isOpen <==> fate.Handed?
    {
      var req := c.ReadRequest();
      if req.Err? {
        c.conn.Close();
        return Closed;
      }
      if req.value.cmd == CMD_CONNECT || req.value.cmd == CMD_BIND {
        return Handed(req.value);
      }
      c.WriteReply(REP_CMD_NOT_SUPPORTED, None);
      c.conn.Close();
      return Closed;
    }

    method HandleSocks5(c: BufferedConn) returns (fate: Fate)
      requires c.conn.isOpen
      modifies c`buf, c.conn
      ensures c.conn.sent == old(c.conn.sent) + Serve(creds, old(c.Unread())).sent
      ensures EndsAs(Serve(creds, old(c.Unread())), fate, c.Unread())
      ensures c.conn.isOpen <==> fate.Handed?
    {
      ghost var before, all := c.conn.sent, c.Unread();
      ghost var turn := Socks5.Negotiate(creds, all);
      var ok := Negotiate(c);
      if !ok {
        c.conn.Close();
        ServeTurnsAway(creds, all);
        return Closed;
      }
      ServeLetsIn(creds, all, c.Unread());
      ghost var ask := Ask(c.Unread());
      fate := HandleRequest(c);
      ConcatAssociates(before, turn.sent, ask.sent);
    }

    /** Accepts a connection: an empty one is closed, and a first byte other than 5 goes to HTTP with nothing taken. */
    method HandleConn(conn: Conn) returns (fate: Fate, c: BufferedConn)
      requires conn.isOpen
      modifies this`activeCnt, this`totalCnt, conn
      ensures fresh(c) && c.conn == conn
      ensures activeCnt == old(activeCnt) - 1 && totalCnt == old(totalCnt) + 1
      ensures conn.isOpen <==> fate != Closed
      ensures old(conn.incoming) == [] ==> fate == Closed && conn.sent == old(conn.sent)
      ensures old(conn.incoming) != [] && old(conn.incoming)[0] != VERSION ==>
                fate == Http && c.Unread() == old(conn.incoming) && conn.sent == old(conn.sent)
      ensures old(conn.incoming) != [] && old(conn.incoming)[0] == VERSION ==>
                && conn.sent == old(conn.sent) + Serve(creds, old(conn.incoming)).sent
                && EndsAs(Serve(creds, old(conn.incoming)), fate, c.Unread())
    {
      c := new BufferedConn(conn);
      var first := c.Peek();
      assert c.Unread() == old(conn.incoming);
      if first.None? {
        conn.Close();
        fate := Closed;
      } else if first.value == VERSION {
        fate := HandleSocks5(c);
      } else {
        fate := Http;
      }
      activeCnt, totalCnt := activeCnt - 1, totalCnt + 1;
    }
  }
}
