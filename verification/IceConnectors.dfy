/** CPeerConnectorIceClient and CPeerConnectorIceServer as they are written: handlers that append to m_Buffer, fill
    request and reply buffers in place and switch m_Status. Each one takes the step TunnelSides describes. */
module IceConnectors {
  import opened Bytes
  import opened PeerConnector
  import opened Readings
  import opened TunnelCodec
  import opened TunnelSides
  import S = TunnelSides

  /** A buffer of `n` octets after memset(buf, 0, n). */
  method Zeroed(n: nat) returns (buf: array<byte>)
    ensures fresh(buf) && buf.Length == n && forall i :: 0 <= i < n ==> buf[i] == 0
  {
    buf := new byte[n];
    for i := 0 to n
      invariant forall j :: 0 <= j < i ==> buf[j] == 0
    {
      buf[i] := 0;
    }
  }

  /** memcpy of a host text behind the head of a frame. */
  method CopyHost(buf: array<byte>, host: seq<byte>)
    requires buf.Length >= HEAD + |host|
    modifies buf
    ensures buf[HEAD..HEAD + |host|] == host
    ensures forall i :: 0 <= i < HEAD ==> buf[i] == old(buf[i])
    ensures forall i :: HEAD + |host| <= i < buf.Length ==> buf[i] == old(buf[i])
  {
    for i := 0 to |host|
      invariant forall j :: 0 <= j < i ==> buf[HEAD + j] == host[j]
      invariant forall j :: 0 <= j < HEAD ==> buf[j] == old(buf[j])
      invariant forall j :: HEAD + |host| <= j < buf.Length ==> buf[j] == old(buf[j])
    {
      buf[HEAD + i] := host[i];
    }
  }

  /** How many octets a buffer lacks; the server connector inherits it from the client connector. */
  method CheckBufferLength(buffer: seq<byte>, n: int) returns (missing: nat)
    ensures missing > 0 <==> |buffer| < n
    ensures missing > 0 ==> |buffer| + missing == n
  {
    var nRet := n - |buffer|;
    missing := if nRet > 0 then nRet else 0;
  }

  class CPeerConnectorIceClient {
    var status: Mode                // m_Status
    var buffer: seq<byte>           // m_Buffer
    var data: seq<byte>             // m_data of the data channel
    var peerAddress: seq<byte>
    var peerPort: port
    var bindAddress: seq<byte>
    var bindPort: port
    var closed: bool
    var crashed: bool
    var posted: seq<seq<byte>>
    var signals: seq<Signal>
    var given: seq<byte>
    ghost var lost: seq<byte>

    ghost function State(): Client
      reads this
    {
      Client(status, buffer, data, peerAddress, peerPort, bindAddress, bindPort, closed, crashed, posted, signals, given, lost)
    }

    /** The constructor together with Connect, which stores the target. */
    constructor (address: seq<byte>, p: port)
      ensures State() == NewClient(address, p)
    {
      status, buffer, data, peerAddress, peerPort := Connect, [], [], address, p;
      bindAddress, bindPort, closed, crashed := [], 0, false, false;
      posted, signals, given, lost := [], [], [], [];
    }

    method SlotDataChannelConnected()
      modifies this
      ensures State() == S.ClientConnected(old(State()))
    {
      var nLen := HEAD + |peerAddress|;
      var buf := Zeroed(nLen);
      buf[0], buf[1], buf[2], buf[3] := 0, 1, High(peerPort), Low(peerPort);
      buf[4] := Octet(|peerAddress|);
      CopyHost(buf, peerAddress);
      assert buf[..] == buf[..HEAD] + buf[HEAD..HEAD + |peerAddress|];
      assert buf[..] == EncodeRequest(peerAddress, peerPort);
      posted := posted + [buf[..]];
    }

    method SlotDataChannelReadyRead()
      modifies this
      ensures State() == S.ClientReadyRead(Written, old(State()))
    {
      if status.Connect? {
        OnConnectionReply();
        return;
      }
      var d := ReadAll();
      given := given + d;
    }

    method ReadAll() returns (d: seq<byte>)
      modifies this`data
      ensures d == old(data) && data == []
    {
      d := data;
      data := [];
    }

    method OnConnectionReply()
      requires status.Connect?
      modifies this
      ensures State() == S.OnConnectionReply(Written, old(State()))
    {
      var d := ReadAll();
      buffer := buffer + d;
      var missing := CheckBufferLength(buffer, HEAD);
      if missing > 0 {
        return;
      }
      if buffer[1] == 0 {
        var n := Signed(buffer[4]);
        missing := CheckBufferLength(buffer, HEAD + n);
        if missing > 0 {
          return;
        }
        if n < 0 {
          crashed := true;
          return;
        }
        assert DecodeReply(Written, buffer)
            == Host(CStr(buffer[HEAD..HEAD + n]), PortOf(buffer[2], buffer[3]), HEAD + n);
        AcceptReply(CStr(buffer[HEAD..HEAD + n]), PortOf(buffer[2], buffer[3]), HEAD + n);
      } else {
        signals := signals + [SigError(Signed(buffer[1]))];
        closed := true;
      }
    }

    /** The success branch: m_Buffer.clear() drops whatever stands behind the reply. */
    method AcceptReply(address: seq<byte>, p: port, ghost len: nat)
      requires len <= |buffer|
      modifies this
      ensures State() == old(State()).(bindHost := address, bindPort := p, mode := Forword, buffer := [],
                                       signals := old(signals) + [SigConnected], lost := old(lost) + old(buffer)[len..])
    {
      bindPort := p;
      bindAddress := address;
      status := Forword;
      lost := lost + buffer[len..];
      buffer := [];
      signals := signals + [SigConnected];
    }

    method Write(block: seq<byte>)
      modifies this`posted
      ensures State() == S.ClientWrite(old(State()), block)
    {
      posted := posted + [block];
    }
  }

  class CPeerConnectorIceServer {
    var status: Mode
    var buffer: seq<byte>
    var data: seq<byte>
    var target: Target              // m_Peer
    var bindAddress: seq<byte>
    var bindPort: port
    var trapped: bool
    var crashed: bool
    var posted: seq<seq<byte>>
    var dials: seq<Endpoint>
    var toTarget: seq<byte>
    var signals: seq<Report>

    ghost function State(): Server
      reads this
    {
      Server(status, buffer, data, target, bindAddress, bindPort, trapped, crashed, posted, dials, toTarget, signals)
    }

    constructor ()
      ensures State() == NewServer()
    {
      status, buffer, data, target, bindAddress, bindPort := Connect, [], [], NoTarget, [], 0;
      trapped, crashed, posted, dials, toTarget, signals := false, false, [], [], [], [];
    }

    method SlotDataChannelReadyRead()
      modifies this
      ensures State() == S.ServerReadyRead(Written, old(State()))
    {
      if status.Connect? {
        var nRet := OnReciveConnectRequst();
        if nRet < 0 {
          signals := signals + [Failure(-1)];
        }
        return;
      }
      if !target.NoTarget? {
        var d := data;
        data := [];
        if target.Up? {
          toTarget := toTarget + d;
        }
      }
    }

    /** Negative for a request that is refused; the caller turns that into an error signal. */
    method OnReciveConnectRequst() returns (nRet: int)
      requires status.Connect?
      modifies this
      ensures (if nRet < 0 then State().(signals := old(signals) + [Failure(-1)]) else State())
           == S.OnReciveConnectRequst(Written, old(State()))
      ensures signals == old(signals)
    {
      buffer, data := buffer + data, [];
      var missing := CheckBufferLength(buffer, HEAD);
      if missing > 0 {
        return 1;
      }
      if buffer[0] != 0 {
        return -1;
      }
      if buffer[1] != 1 {
        return -1;
      }
      var p := PortOf(buffer[2], buffer[3]);
      var n := Signed(buffer[4]);
      missing := CheckBufferLength(buffer, HEAD + n);
      if missing > 0 {
        return 1;
      }
      if n < 0 {
        crashed := true;
        return 0;
      }
      var address := CStr(buffer[HEAD..HEAD + n]);
      if !target.NoTarget? {
        trapped := true;
        return 0;
      }
      target := Dialled;
      dials := dials + [Endpoint(address, p)];
      return 0;
    }

    /** The reply is built in a zeroed buffer; only a success fills in the bind address. */
    method Reply(nError: int)
      modifies this`posted
      ensures State() == S.Reply(old(State()), nError)
    {
      var nLen := HEAD + |bindAddress|;
      var buf := Zeroed(nLen + 1);
      buf[1] := Octet(nError);
      if nError == 0 {
        FillBind(buf);
      } else {
        assert buf[..HEAD] == [0, Octet(nError), 0, 0, 0];
        assert buf[HEAD..nLen] == Zeros(|bindAddress|);
      }
      assert buf[..nLen] == buf[..HEAD] + buf[HEAD..nLen];
      assert buf[..nLen] == EncodeReply(nError, bindAddress, bindPort);
      posted := posted + [buf[..nLen]];
    }

    method FillBind(buf: array<byte>)
      requires buf.Length == HEAD + |bindAddress| + 1
      modifies buf
      ensures buf[..HEAD] == [old(buf[0]), old(buf[1])] + PortBytes(bindPort) + [Octet(|bindAddress|)]
      ensures buf[HEAD..HEAD + |bindAddress|] == bindAddress
    {
      buf[2], buf[3] := High(bindPort), Low(bindPort);
      buf[4] := Octet(|bindAddress|);
      CopyHost(buf, bindAddress);
    }

    method SlotPeerConnected(localAddress: seq<byte>, localPort: port)
      modifies this
      ensures State() == S.ServerPeerConnected(old(State()), localAddress, localPort)
    {
      target := Up;
      bindPort := localPort;
      bindAddress := localAddress;
      status := Forword;
      Reply(0);
    }

    method SlotPeerDisconnectd()
      modifies this
      ensures State() == S.ServerPeerDisconnected(old(State()))
    {
      if status.Connect? {
        Reply(ERROR_NOT_ALLOWED);
      }
      signals := signals + [Disconnect];
      target := Down;
    }

    method SlotPeerError(nError: int)
      modifies this
      ensures State() == S.ServerPeerError(old(State()), nError)
    {
      if status.Connect? {
        Reply(nError);
      }
      signals := signals + [Failure(nError)];
      target := Down;
    }

    method SlotPeerRead(d: seq<byte>)
      modifies this`posted
      ensures State() == S.ServerPeerRead(old(State()), d)
    {
      posted := posted + [d];
    }
  }
}
