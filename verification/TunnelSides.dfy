/** The two connectors of the ICE tunnel, handler by handler: CPeerConnectorIceClient at the side of the SOCKS
    session, CPeerConnectorIceServer at the side of the target. */
module TunnelSides {
  import opened Bytes
  import opened PeerConnector
  import opened Readings
  import opened TunnelCodec

  datatype Mode = Connect | Forword             // STATUS in the source

  // ---------------------------------------------------------------- the client connector

  datatype Signal = SigConnected | SigError(code: int)

  datatype Client = Client(
    mode: Mode,                     // m_Status
    buffer: seq<byte>,              // m_Buffer
    data: seq<byte>,                // m_data of its data channel
    host: seq<byte>, port: port,    // m_peerAddress, m_nPeerPort
    bindHost: seq<byte>, bindPort: port,
    closed: bool,                   // Close() was called: the session has let go of the connector
    crashed: bool,
    posted: seq<seq<byte>>,         // blocks written to the data channel
    signals: seq<Signal>,           // sigConnected and sigError
    given: seq<byte>,               // what ReadAll() has handed to the session
    lost: seq<byte>                 // what m_Buffer.clear() threw away
  )

  function NewClient(host: seq<byte>, p: port): Client {
    Client(Connect, [], [], host, p, [], 0, false, false, [], [], [], [])
  }

  /** slotDataChannelConnected. */
  function ClientConnected(c: Client): Client {
    c.(posted := c.posted + [EncodeRequest(c.host, c.port)])
  }

  /** OnConnectionReply. As written the whole buffer is cleared on success; as intended what stands behind the reply
      stays readable. The session closes the connector when it hears of an error. */
  function OnConnectionReply(v: Variant, c: Client): Client {
    var buf := c.buffer + c.data;
    var c1 := c.(buffer := buf, data := []);
    match DecodeReply(v, buf)
    case Host(host, p, len) =>
      var rest := if 0 <= len <= |buf| then buf[len..] else [];
      var c2 := c1.(bindHost := host, bindPort := p, mode := Forword, buffer := [], signals := c.signals + [SigConnected]);
      if v.Written? then c2.(lost := c.lost + rest) else c2.(given := c.given + rest)
    case Error(code) => c1.(signals := c.signals + [SigError(code)], closed := true)
    case Crash => c1.(crashed := true)
    case _ => c1
  }

  /** slotDataChannelReadyRead; in FORWORD the session reads everything there is. */
  function ClientReadyRead(v: Variant, c: Client): Client {
    if c.mode.Connect? then OnConnectionReply(v, c)
    else c.(given := c.given + c.data, data := [])
  }

  /** Write: the session writes only after it heard of the connection. */
  function ClientWrite(c: Client, block: seq<byte>): Client {
    c.(posted := c.posted + [block])
  }

  // ---------------------------------------------------------------- the server connector

  datatype Report = Failure(code: int) | Disconnect

  /** m_Peer and its socket: absent, dialling, connected, or failed. */
  datatype Target = NoTarget | Dialled | Up | Down

  datatype Server = Server(
    mode: Mode,
    buffer: seq<byte>,
    data: seq<byte>,
    target: Target,
    bindHost: seq<byte>, bindPort: port,
    trapped: bool,                  // Q_ASSERT(false): a second request was parsed
    crashed: bool,
    posted: seq<seq<byte>>,
    dials: seq<Endpoint>,           // the calls of m_Peer->Connect
    toTarget: seq<byte>,
    signals: seq<Report>            // sigError and sigDisconnected, which the registry listens to
  )

  function NewServer(): Server {
    Server(Connect, [], [], NoTarget, [], 0, false, false, [], [], [], [])
  }

  /** OnReciveConnectRequst. */
  function OnReciveConnectRequst(v: Variant, s: Server): Server {
    var buf := s.buffer + s.data;
    var s1 := s.(buffer := buf, data := []);
    match DecodeRequest(v, buf)
    case Host(host, p, _) =>
      if !s.target.NoTarget? then s1.(trapped := true)
      else s1.(target := Dialled, dials := s.dials + [Endpoint(host, p)])
    case Refuse => s1.(signals := s.signals + [Failure(-1)])
    case Crash => s1.(crashed := true)
    case _ => s1
  }

  /** slotDataChannelReadyRead. What is written to a socket that has gone is lost with it. */
  function ServerReadyRead(v: Variant, s: Server): Server {
    if s.mode.Connect? then OnReciveConnectRequst(v, s)
    else if s.target.NoTarget? then s
    else if s.target.Up? then s.(toTarget := s.toTarget + s.data, data := [])
    else s.(data := [])
  }

  function Reply(s: Server, err: int): Server {
    s.(posted := s.posted + [EncodeReply(err, s.bindHost, s.bindPort)])
  }

  /** slotPeerConnected. */
  function ServerPeerConnected(s: Server, host: seq<byte>, p: port): Server {
    Reply(s.(bindHost := host, bindPort := p, mode := Forword, target := Up), 0)
  }

  /** slotPeerError. */
  function ServerPeerError(s: Server, err: int): Server {
    var s1 := if s.mode.Connect? then Reply(s, err) else s;
    s1.(signals := s.signals + [Failure(err)], target := Down)
  }

  /** slotPeerDisconnectd. */
  function ServerPeerDisconnected(s: Server): Server {
    var s1 := if s.mode.Connect? then Reply(s, ERROR_NOT_ALLOWED) else s;
    s1.(signals := s.signals + [Disconnect], target := Down)
  }

  /** slotPeerRead. */
  function ServerPeerRead(s: Server, d: seq<byte>): Server {
    s.(posted := s.posted + [d])
  }
}
