/** CProxySocks5 as it is written: slots that update fields, re-enter themselves and fill reply buffers in place.
    Every method is proved to take the step that Socks5Session describes for the written text. */
module Socks5Proxy {
  import opened Bytes
  import opened PeerConnector
  import opened Readings
  import Decimal
  import opened Socks5Frames
  import opened Socks5Session
  import S = Socks5Session

  lemma SelectStep(supported: seq<byte>, offered: seq<byte>, i: nat)
    requires i < |offered|
    ensures Select(supported, offered[i..])
         == if offered[i] in supported then offered[i] else Select(supported, offered[i + 1..])
  {
    assert offered[i..][0] == offered[i];
    assert offered[i..][1..] == offered[i + 1..];
  }

  /** How many slotRead calls one readable event can nest when it arrives in this status. */
  function Nesting(s: Status): nat {
    if s.Forward? then 1 else Stage(s)
  }

  lemma NegotiateStep(cfg: Config, s: Session)
    requires ParseMethods(Written, s.buf).Some?
    ensures var m := ParseMethods(Written, s.buf).value;
            var chosen := Select(cfg.methods, m.offered);
            S.ProcessNegotiate(Written, cfg, s)
              == S.Remove(Written, cfg, Send(s.(chosen := chosen), MethodReply(chosen)).(status := Authentication), m.len)
  {
  }

  class CProxySocks5 {
    const cfg: Config

    var status: Status              // m_Status
    var cmdBuf: seq<byte>           // m_cmdBuf
    var authenticator: byte         // m_currentAuthenticator
    var client: Endpoint            // m_Client.szHost, m_Client.nPort
    var clientLen: nat              // m_Client.nLen
    var socket: bool                // m_pSocket is not null
    var inbox: seq<byte>            // what readAll() would find on the socket
    var outbox: seq<byte>           // what has been written to the socket
    var peer: Peer                  // m_pPeer
    var toPeer: seq<byte>           // what has been written to the peer
    var dials: seq<Endpoint>        // the calls of m_pPeer->Connect
    var halt: Halt

    ghost var sent: seq<Output>
    ghost var received: seq<byte>
    ghost var consumed: seq<seq<byte>>

    ghost function State(): Session
      reads this
    {
      Session(status, cmdBuf, authenticator, client, clientLen, socket, peer, halt, sent, toPeer, dials, received, consumed)
    }

    /** The octets on the socket are those of the replies logged. */
    ghost predicate Valid()
      reads this
    {
      outbox == Wire(sent)
    }

    constructor (cfg: Config)
      ensures Valid() && State() == Fresh() && inbox == [] && this.cfg == cfg
    {
      this.cfg := cfg;
      status, cmdBuf, authenticator, client, clientLen := Negotiate, [], NO_ACCEPTABLE, Endpoint([], 0), 0;
      socket, inbox, outbox, peer, toPeer, dials, halt := true, [], [], NoPeer, [], [], Running;
      sent, received, consumed := [], [VERSION], [];
    }

    // ---------------------------------------------------------------- CProxy

    method SlotClose()
      requires Valid()
      modifies this
      ensures Valid() && State() == S.Close(old(State())) && inbox == old(inbox)
    {
      socket := false;
      peer := NoPeer;
    }

    /** m_pSocket->write. */
    method Write(data: seq<byte>, ghost what: Output)
      requires Valid() && socket && data == OutputBytes(what)
      modifies this`outbox, this`sent
      ensures Valid() && State() == Send(old(State()), what)
    {
      WirePush(sent, what);
      outbox := outbox + data;
      sent := sent + [what];
    }

    method CheckBufferLength(n: int) returns (missing: nat)
      ensures missing > 0 <==> |cmdBuf| < n
      ensures missing > 0 ==> |cmdBuf| + missing == n
    {
      var nRet := n - |cmdBuf|;
      missing := if nRet > 0 then nRet else 0;
    }

    /** Takes `n` octets off the buffer and reads on when some are left; a negative `n` drops everything.
        `depth` counts the slotRead calls nested inside this call. */
    method RemoveCommandBuffer(n: int) returns (ghost depth: nat)
      requires Valid() && halt.Running? && inbox == []
      modifies this
      ensures Valid() && State() == S.Remove(Written, cfg, old(State()), n) && inbox == []
      ensures depth <= Nesting(old(status))
      decreases Stage(status), 2
    {
      depth := 0;
      if n < 0 {
        consumed := consumed + [cmdBuf];
        cmdBuf := [];
      } else if |cmdBuf| > n {
        consumed := consumed + [cmdBuf[..n]];
        cmdBuf := cmdBuf[n..];
        ghost var mid := State();
        depth := SlotRead();
        assert State() == S.SlotRead(Written, cfg, mid, []);
      } else {
        consumed := consumed + [cmdBuf];
        cmdBuf := [];
      }
    }

    // ---------------------------------------------------------------- CProxySocks5

    /** `depth` counts this call and the slotRead calls nested inside it: at most three, since a nested call
        finds a later stage. */
    method SlotRead() returns (ghost depth: nat)
      requires Valid() && halt.Running?
      modifies this
      ensures Valid() && State() == S.SlotRead(Written, cfg, old(State()), old(inbox))
      ensures (old(socket) && (old(status).Forward? ==> !old(peer).NoPeer?)) || old(inbox) == [] ==> inbox == []
      ensures 1 <= depth <= Nesting(old(status)) <= 3
      decreases Stage(status), 1
    {
      depth := 0;
      match status {
        case Negotiate => depth := ProcessNegotiate();
        case Authentication => depth := ProcessAuthenticator();
        case ClientRequest => ProcessClientRequest();
        case Forward =>
          if !peer.NoPeer? && socket {
            var d := inbox;
            inbox := [];
            toPeer := toPeer + d;
          }
      }
      depth := depth + 1;
    }

    method ProcessNegotiate() returns (ghost depth: nat)
      requires Valid() && halt.Running? && status.Negotiate?
      modifies this
      ensures Valid() && (old(socket) || old(inbox) == [] ==> inbox == [])
      ensures State() == if !old(socket) then Trap(old(State()))
                         else S.ProcessNegotiate(Written, cfg, old(State()).(buf := old(cmdBuf) + old(inbox)))
      ensures depth <= Nesting(Authentication)
      decreases Stage(Negotiate), 0
    {
      depth := 0;
      if !socket {
        halt := Trapped;
        return;
      }
      cmdBuf, inbox := cmdBuf + inbox, [];
      if cmdBuf == [] {
        return;
      }
      var nLen := 1 + Signed(cmdBuf[0]);
      var missing := CheckBufferLength(nLen);
      if missing > 0 {
        return;
      }
      NegotiateStep(cfg, State());
      AnswerOffer();
      depth := RemoveCommandBuffer(nLen);
    }

    /** The reply, and the switch to the next stage. */
    method AnswerOffer()
      requires Valid() && ParseMethods(Written, cmdBuf).Some? && socket
      modifies this
      ensures Valid() && inbox == old(inbox)
      ensures var chosen := Select(cfg.methods, ParseMethods(Written, old(cmdBuf)).value.offered);
              State() == Send(old(State()).(chosen := chosen), MethodReply(chosen)).(status := Authentication)
    {
      ProcessNegotiateReply(cmdBuf);
      status := Authentication;
    }

    method ProcessNegotiateReply(data: seq<byte>)
      requires Valid() && ParseMethods(Written, data).Some? && socket
      modifies this
      ensures Valid() && inbox == old(inbox)
      ensures authenticator == Select(cfg.methods, ParseMethods(Written, data).value.offered)
      ensures State() == Send(old(State()).(chosen := authenticator), MethodReply(authenticator))
    {
      var chosen := ChooseMethod(data);
      authenticator := chosen;
      Write([VERSION, chosen], MethodReply(chosen));
    }

    /** The loop of processNegotiateReply: the first offered method that the server supports, or 0xFF if there is none. */
    method ChooseMethod(data: seq<byte>) returns (chosen: byte)
      requires ParseMethods(Written, data).Some?
      ensures chosen == Select(cfg.methods, ParseMethods(Written, data).value.offered)
    {
      chosen := NO_ACCEPTABLE;
      var i := 0;
      ghost var offered := ParseMethods(Written, data).value.offered;
      assert offered[0..] == offered;
      while i < Signed(data[0])
        invariant 0 <= i <= |offered|
        invariant chosen == NO_ACCEPTABLE
        invariant Select(cfg.methods, offered) == Select(cfg.methods, offered[i..])
      {
        var c := data[i + 1];
        assert c == offered[i];
        SelectStep(cfg.methods, offered, i);
        if c in cfg.methods {
          return c;
        }
        i := i + 1;
      }
    }

    method ProcessAuthenticator() returns (ghost depth: nat)
      requires Valid() && halt.Running? && status.Authentication?
      modifies this
      ensures Valid() && (old(socket) || old(inbox) == [] ==> inbox == [])
      ensures State() == if !old(socket) then Trap(old(State()))
                         else S.ProcessAuthenticator(Written, cfg, old(State()).(buf := old(cmdBuf) + old(inbox)))
      ensures depth <= Nesting(ClientRequest)
      decreases Stage(Authentication), 0
    {
      depth := 0;
      if !socket {
        halt := Trapped;
        return;
      }
      cmdBuf, inbox := cmdBuf + inbox, [];
      if authenticator == NO_AUTHENTICATION {
        status := ClientRequest;
        depth := SlotRead();
      } else if authenticator == USER_PASSWORD {
        depth := CheckLogin();
      } else {
        SlotClose();
      }
    }

    /** The user name and password branch. */
    method CheckLogin() returns (ghost depth: nat)
      requires Valid() && halt.Running? && status.Authentication? && authenticator == USER_PASSWORD && inbox == []
      modifies this
      ensures Valid() && inbox == []
      ensures State() == S.ProcessAuthenticator(Written, cfg, old(State()))
      ensures depth <= Nesting(ClientRequest)
      decreases Stage(Authentication), -1
    {
      depth := 0;
      var login := ReadLogin();
      if login.None? {
        return;
      }
      if login.value.BadLoginVersion? {
        ReplyLogin(1);
        return;
      }
      var nRet := ProcessAuthenticatorUserPassword(login.value.user, login.value.password);
      ReplyLogin(nRet);
      if nRet == 0 {
        SlotClose();
        return;
      }
      status := ClientRequest;
      depth := RemoveCommandBuffer(login.value.len);
    }

    /** processAuthenticatorUserPassword: 0 on success. */
    method ProcessAuthenticatorUserPassword(user: seq<byte>, password: seq<byte>) returns (nRet: int)
      ensures nRet == if user == cfg.user && password == cfg.password then 0 else -1
    {
      if cfg.user == user && cfg.password == password {
        return 0;
      }
      return -1;
    }

    /** The guards of the branch. The password length is read one octet too early: what lies behind the buffer
        then may be anything, and the login read is the same. */
    method ReadLogin() returns (login: Option<Login>)
      ensures login == ParseLogin(cmdBuf)
    {
      var missing := CheckBufferLength(2);
      if missing > 0 {
        return None;
      }
      if cmdBuf[0] != 1 {
        return Some(BadLoginVersion);
      }
      var nUser: int := cmdBuf[1];
      missing := CheckBufferLength(nUser + 2);
      if missing > 0 {
        return None;
      }
      var stray: byte := *;
      ShortLoginGuardIsHarmless(cmdBuf, stray);
      var nPassword: int := if nUser + 2 < |cmdBuf| then cmdBuf[nUser + 2] else stray;
      missing := CheckBufferLength(nUser + 3 + nPassword);
      if missing > 0 {
        return None;
      }
      return Some(Login(CStr(cmdBuf[2..2 + nUser]), CStr(cmdBuf[nUser + 3..nUser + 3 + nPassword]), 3 + nUser + nPassword));
    }

    /** replyAuthenticatorUserPassword: a status that is not 0 closes the session. */
    method ReplyLogin(nRet: int)
      requires Valid() && -1 <= nRet <= 1
      modifies this
      ensures Valid() && inbox == old(inbox)
      ensures State() == var s := Send(old(State()), LoginReply(Octet(nRet))); if nRet == 0 then s else S.Close(s)
    {
      if socket {
        Write([1, Octet(nRet)], LoginReply(Octet(nRet)));
      }
      if nRet != 0 {
        SlotClose();
      }
    }

    method ProcessClientRequest()
      requires Valid() && halt.Running? && status.ClientRequest?
      modifies this
      ensures Valid()
      ensures old(socket) || old(inbox) == [] ==> inbox == []
      ensures State() == if !old(socket) then Trap(old(State()))
                         else S.ProcessClientRequest(Written, old(State()).(buf := old(cmdBuf) + old(inbox)))
    {
      if !socket {
        halt := Trapped;
        return;
      }
      cmdBuf, inbox := cmdBuf + inbox, [];
      var missing := CheckBufferLength(4);
      if missing > 0 {
        return;
      }
      if cmdBuf[0] != VERSION {
        return;
      }
      if cmdBuf[3] == 1 {
        RequestIPv4();
      } else if cmdBuf[3] == 3 {
        RequestDomain();
      } else {
        if cmdBuf[3] == 4 {
          missing := CheckBufferLength(22);
          if missing > 0 {
            return;
          }
        }
        ProcessClientReply(ADDRESS_TYPE_NOT_SUPPORTED, NullAddress, 0);
      }
    }

    method RequestIPv4()
      requires Valid() && halt.Running? && |cmdBuf| >= 4 && cmdBuf[0] == VERSION && cmdBuf[3] == 1
      modifies this
      ensures Valid() && inbox == old(inbox)
      ensures State() == S.ProcessClientRequest(Written, old(State()))
    {
      var missing := CheckBufferLength(10);
      if missing > 0 {
        return;
      }
      clientLen := 10;
      client := Endpoint(Decimal.Dotted(cmdBuf[4..8]), PortOf(cmdBuf[8], cmdBuf[9]));
      assert ParseRequest(cmdBuf) == Some(Target(cmdBuf[1], IPv4(cmdBuf[4..8]), client.port, clientLen));
      ProcessExecClientRequest();
    }

    method RequestDomain()
      requires Valid() && halt.Running? && |cmdBuf| >= 4 && cmdBuf[0] == VERSION && cmdBuf[3] == 3
      modifies this
      ensures Valid() && inbox == old(inbox)
      ensures State() == S.ProcessClientRequest(Written, old(State()))
    {
      var missing := CheckBufferLength(6);
      if missing > 0 {
        return;
      }
      var nLen: int := cmdBuf[4];
      missing := CheckBufferLength(7 + nLen);
      if missing > 0 {
        return;
      }
      clientLen := 7 + nLen;
      client := Endpoint(CStr(cmdBuf[5..5 + nLen]), PortOf(cmdBuf[5 + nLen], cmdBuf[6 + nLen]));
      assert ParseRequest(cmdBuf) == Some(Target(cmdBuf[1], Domain(cmdBuf[5..5 + nLen]), client.port, clientLen));
      ProcessExecClientRequest();
    }

    method ProcessExecClientRequest()
      requires Valid() && halt.Running? && |cmdBuf| >= 4
      modifies this
      ensures Valid() && inbox == old(inbox)
      ensures State() == if old(cmdBuf)[1] == CONNECT then S.ProcessConnect(old(State()))
                         else if old(cmdBuf)[1] == BIND then old(State()).(halt := Outside)
                         else if old(cmdBuf)[1] == UDP_ASSOCIATE then old(State())
                         else S.ProcessReply(old(State()), COMMAND_NOT_SUPPORTED, NullAddress, 0)
    {
      if cmdBuf[1] == CONNECT {
        ProcessConnect();
      } else if cmdBuf[1] == BIND {
        halt := Outside;
      } else if cmdBuf[1] == UDP_ASSOCIATE {
      } else {
        ProcessClientReply(COMMAND_NOT_SUPPORTED, NullAddress, 0);
      }
    }

    method ProcessConnect()
      requires Valid() && halt.Running? && cmdBuf != []
      modifies this
      ensures Valid() && inbox == old(inbox)
      ensures State() == S.ProcessConnect(old(State()))
    {
      if client.host == [] {
        ProcessClientReply(HOST_UNREACHABLE, NullAddress, 0);
        return;
      }
      if !peer.NoPeer? {
        halt := Trapped;
        return;
      }
      peer := Dialling;
      dials := dials + [client];
    }

    method ProcessClientReply(rep: byte, add: HostAddress, nPort: port)
      requires Valid() && cmdBuf != []
      modifies this
      ensures Valid() && inbox == old(inbox)
      ensures State() == S.ProcessReply(old(State()), rep, add, nPort)
    {
      var buf := BuildReply(cmdBuf[0], rep, add, nPort);
      if socket {
        Write(buf[..], RequestReply(cmdBuf[0], rep, add, nPort));
      }
      if rep != SUCCEEDED {
        SlotClose();
      }
    }

    /** Fills a reply buffer of exactly the reply's length, octet by octet. */
    static method BuildReply(version: byte, rep: byte, add: HostAddress, nPort: port) returns (buf: array<byte>)
      ensures fresh(buf) && buf[..] == EncodeReply(version, rep, add, nPort)
    {
      var ip := ToIPv4(add);
      var addressType: byte, body: seq<byte> := 1, [0, 0, 0, 0];
      if ip.Some? {
        body := ip.value;
      } else if add.V6? {
        addressType, body := 4, add.group;
      }
      assert addressType == AddressType(Named(add)) && body == AddressBytes(Named(add));
      buf := Fill(version, rep, addressType, body, nPort);
    }

    static method Fill(version: byte, rep: byte, addressType: byte, body: seq<byte>, nPort: port) returns (buf: array<byte>)
      ensures fresh(buf) && buf[..] == [version, rep, 0, addressType] + body + PortBytes(nPort)
    {
      var nLen := 4 + |body| + 2;
      buf := new byte[nLen];
      buf[0], buf[1], buf[2], buf[3] := version, rep, 0, addressType;
      forall i | 0 <= i < |body| {
        buf[4 + i] := body[i];
      }
      buf[nLen - 2], buf[nLen - 1] := High(nPort), Low(nPort);
      assert buf[4..nLen - 2] == body;
      assert buf[..] == buf[..4] + buf[4..nLen - 2] + buf[nLen - 2..];
    }

    // ---------------------------------------------------------------- the signals

    /** readyRead with `chunk` on the socket. */
    method ReadyRead(chunk: seq<byte>)
      requires Valid() && Live(State()) && inbox == []
      requires status.Forward? ==> !peer.NoPeer?
      modifies this
      ensures Valid() && inbox == []
      ensures State() == S.Read(Written, cfg, old(State()), chunk)
    {
      inbox := chunk;
      received := received + chunk;
      ghost var depth := SlotRead();
    }

    method SlotPeerConnected(localAddress: HostAddress, localPort: port)
      requires Valid() && Live(State()) && inbox == [] && cmdBuf != []
      modifies this
      ensures Valid() && inbox == []
      ensures State() == S.PeerConnected(Written, cfg, old(State()), localAddress, localPort)
    {
      ProcessClientReply(SUCCEEDED, localAddress, localPort);
      status := Forward;
      peer := Linked;
      ghost var depth := RemoveCommandBuffer(clientLen);
    }

    method SlotPeerDisconnected()
      requires Valid()
      modifies this
      ensures Valid() && State() == S.Close(old(State())) && inbox == old(inbox)
    {
      SlotClose();
    }

    method SlotPeerError(err: int, localAddress: HostAddress, localPort: port)
      requires Valid() && (!status.Forward? ==> cmdBuf != [])
      modifies this
      ensures Valid() && inbox == old(inbox)
      ensures State() == S.PeerError(old(State()), err, localAddress, localPort)
    {
      if status.Forward? {
        SlotClose();
        return;
      }
      if err == ERROR_CONNECTION_REFUSED {
        ProcessClientReply(CONNECTION_REFUSED, localAddress, localPort);
      } else if err == ERROR_HOST_NOT_FOUND {
        ProcessClientReply(HOST_UNREACHABLE, localAddress, localPort);
      } else if err == ERROR_NOT_ALLOWED {
        ProcessClientReply(NOT_ALLOWED, localAddress, localPort);
      } else {
        SlotClose();
      }
    }

    /** CProxySocks4::slotPeerRead. */
    method SlotPeerRead(d: seq<byte>)
      requires Valid()
      modifies this
      ensures Valid() && inbox == old(inbox)
      ensures State() == if old(peer).NoPeer? || d == [] then old(State()) else Send(old(State()), PeerBytes(d))
    {
      if peer.NoPeer? || !socket {
        return;
      }
      if d == [] {
        return;
      }
      Write(d, PeerBytes(d));
    }
  }
}
