/** The SOCKS5 session of CProxySocks5 as a state machine over socket reads and peer events.
    Every handler exists in two readings (see Variant); the places where they part are marked "as written". */
module Socks5Session {
  import opened Bytes
  import opened PeerConnector
  import opened Readings
  import opened Socks5Frames

  datatype Config = Config(methods: seq<byte>, user: seq<byte>, password: seq<byte>, v4: bool, v5: bool)

  datatype Status = Negotiate | Authentication | ClientRequest | Forward

  /** m_pPeer: absent, with its dial pending, or connected. */
  datatype Peer = NoPeer | Dialling | Linked

  /** Trapped: a Q_ASSERT(false) or a null socket was reached. Outside: BIND, which is not modelled. */
  datatype Halt = Running | Trapped | Outside

  /** What is written to the SOCKS client. */
  datatype Output =
    | MethodReply(choice: byte)
    | LoginReply(status: byte)
    | RequestReply(version: byte, code: byte, address: HostAddress, port: port)
    | PeerBytes(data: seq<byte>)

  datatype Session = Session(
    status: Status,
    buf: seq<byte>,                 // m_cmdBuf
    chosen: byte,                   // m_currentAuthenticator
    target: Endpoint,               // m_Client.szHost, m_Client.nPort
    targetLen: nat,                 // m_Client.nLen
    open: bool,                     // m_pSocket is not null
    peer: Peer,
    halt: Halt,
    sent: seq<Output>,              // written to the client, oldest first
    forwarded: seq<byte>,           // written to the peer
    dials: seq<Endpoint>,           // calls of m_pPeer->Connect
    received: seq<byte>,            // every octet read from the client
    consumed: seq<seq<byte>>        // every piece taken off m_cmdBuf by RemoveCommandBuffer
  )

  /** A session as the version dispatch creates it: the version octet has been read. */
  function Fresh(): Session {
    Session(Negotiate, [], NO_ACCEPTABLE, Endpoint([], 0), 0, true, NoPeer, Running, [], [], [], [VERSION], [])
  }

  predicate Live(s: Session) {
    s.open && s.halt.Running?
  }

  /** CProxy::slotClose. */
  function Close(s: Session): Session {
    s.(open := false, peer := NoPeer)
  }

  function Trap(s: Session): Session {
    s.(halt := Trapped)
  }

  function Send(s: Session, o: Output): Session {
    if s.open then s.(sent := s.sent + [o]) else s
  }

  function Stage(s: Status): nat {
    match s
    case Negotiate => 3
    case Authentication => 2
    case ClientRequest => 1
    case Forward => 0
  }

  /** CProxySocks5::slotRead; `incoming` is what readAll() finds on the socket. */
  function SlotRead(v: Variant, cfg: Config, s: Session, incoming: seq<byte>): Session
    decreases Stage(s.status), 1
  {
    if !s.open && !s.status.Forward? then Trap(s)                      // m_pSocket is null
    else
      match s.status
      case Negotiate => ProcessNegotiate(v, cfg, s.(buf := s.buf + incoming))
      case Authentication => ProcessAuthenticator(v, cfg, s.(buf := s.buf + incoming))
      case ClientRequest => ProcessClientRequest(v, s.(buf := s.buf + incoming))
      case Forward => Relay(v, s, incoming)
  }

  /** The Forward branch. As written only new octets travel; as intended what waits in the buffer goes first. */
  function Relay(v: Variant, s: Session, incoming: seq<byte>): Session {
    if s.peer.NoPeer? || !s.open then s
    else if v.Written? then s.(forwarded := s.forwarded + incoming)
    else s.(forwarded := s.forwarded + s.buf + incoming, buf := [])
  }

  /** CProxy::RemoveCommandBuffer. */
  function Remove(v: Variant, cfg: Config, s: Session, n: int): Session
    decreases Stage(s.status), 2
  {
    if 0 <= n < |s.buf| then
      SlotRead(v, cfg, s.(buf := s.buf[n..], consumed := s.consumed + [s.buf[..n]]), [])
    else s.(buf := [], consumed := s.consumed + [s.buf])
  }

  function ProcessNegotiate(v: Variant, cfg: Config, s: Session): Session
    decreases Stage(Negotiate), 0
  {
    var m := ParseMethods(v, s.buf);
    if m.None? then s else
    var chosen := Select(cfg.methods, m.value.offered);
    Remove(v, cfg, Send(s.(chosen := chosen, status := Authentication), MethodReply(chosen)), m.value.len)
  }

  predicate Credentials(cfg: Config, l: Login)
    requires l.Login?
  {
    cfg.user == l.user && cfg.password == l.password
  }

  function ProcessAuthenticator(v: Variant, cfg: Config, s: Session): Session
    decreases Stage(Authentication), 0
  {
    if s.chosen == NO_AUTHENTICATION then SlotRead(v, cfg, s.(status := ClientRequest), [])
    else if s.chosen == USER_PASSWORD then
      var l := ParseLogin(s.buf);
      if l.None? then s
      else if l.value.BadLoginVersion? then Close(Send(s, LoginReply(1)))
      else if Credentials(cfg, l.value) then
        var s1 := Send(s, LoginReply(0));
        if v.Written? then Close(s1)                                   // as written: success closes
        else Remove(v, cfg, s1.(status := ClientRequest), l.value.len)
      else
        var s1 := Close(Send(s, LoginReply(255)));
        if v.Written? then Remove(v, cfg, s1.(status := ClientRequest), l.value.len)   // as written: failure goes on
        else s1
    else Close(s)
  }

  /** CProxySocks5::processClientReply; `a` and `p` are the peer's local address and port. */
  function ProcessReply(s: Session, code: byte, a: HostAddress, p: port): Session {
    var version := if s.buf == [] then 0 else s.buf[0];
    var s1 := Send(s, RequestReply(version, code, a, p));
    if code == 0 then s1 else Close(s1)
  }

  const SUCCEEDED: byte := 0
  const NOT_ALLOWED: byte := 2
  const HOST_UNREACHABLE: byte := 4
  const CONNECTION_REFUSED: byte := 5
  const COMMAND_NOT_SUPPORTED: byte := 7
  const ADDRESS_TYPE_NOT_SUPPORTED: byte := 8

  const CONNECT: byte := 1
  const BIND: byte := 2
  const UDP_ASSOCIATE: byte := 3

  function ProcessClientRequest(v: Variant, s: Session): Session {
    var r := ParseRequest(s.buf);
    if r.None? then s
    else if v.Intended? && s.peer.Dialling? then s                     // as intended: wait for the dial
    else
      match r.value
      case OtherVersion => s
      case OtherAddressType => ProcessReply(s, ADDRESS_TYPE_NOT_SUPPORTED, NullAddress, 0)
      case Target(command, address, p, len) =>
        var s1 := s.(target := Endpoint(HostText(address), p), targetLen := len);
        if command == CONNECT then ProcessConnect(s1)
        else if command == BIND then s1.(halt := Outside)
        else if command == UDP_ASSOCIATE then s1
        else ProcessReply(s1, COMMAND_NOT_SUPPORTED, NullAddress, 0)
  }

  function ProcessConnect(s: Session): Session {
    if s.target.host == [] then ProcessReply(s, HOST_UNREACHABLE, NullAddress, 0)
    else if !s.peer.NoPeer? then Trap(s)                               // as written: Q_ASSERT(false)
    else s.(peer := Dialling, dials := s.dials + [s.target])
  }

  /** A readyRead signal with `chunk` on the socket. */
  function Read(v: Variant, cfg: Config, s: Session, chunk: seq<byte>): Session {
    if Live(s) then SlotRead(v, cfg, s.(received := s.received + chunk), chunk) else s
  }

  function PeerConnected(v: Variant, cfg: Config, s: Session, a: HostAddress, p: port): Session {
    Remove(v, cfg, ProcessReply(s, SUCCEEDED, a, p).(status := Forward, peer := Linked), s.targetLen)
  }

  /** The reply code a connector error is answered with; None closes the session silently. */
  function ErrorReply(err: int): Option<byte> {
    if err == ERROR_CONNECTION_REFUSED then Some(CONNECTION_REFUSED)
    else if err == ERROR_HOST_NOT_FOUND then Some(HOST_UNREACHABLE)
    else if err == ERROR_NOT_ALLOWED then Some(NOT_ALLOWED)
    else None
  }

  function PeerError(s: Session, err: int, a: HostAddress, p: port): Session {
    if s.status.Forward? || ErrorReply(err).None? then Close(s)
    else ProcessReply(s, ErrorReply(err).value, a, p)
  }

  datatype Event =
    | Data(chunk: seq<byte>)
    | Connected(address: HostAddress, port: port)
    | Failed(err: int, address: HostAddress, port: port)
    | Disconnected
    | PeerData(data: seq<byte>)
    | Hangup                        // the client went away, or the service stops

  /** A connector reports success once, while its dial is pending, and data only afterwards. */
  predicate Enabled(s: Session, e: Event) {
    match e
    case Data(_) => true
    case Connected(_, _) => s.peer.Dialling?
    case Failed(_, _, _) => !s.peer.NoPeer?
    case Disconnected => !s.peer.NoPeer?
    case PeerData(_) => s.peer.Linked?
    case Hangup => true
  }

  function Step(v: Variant, cfg: Config, s: Session, e: Event): Session {
    if !Live(s) || !Enabled(s, e) then s else
    match e
    case Data(chunk) => Read(v, cfg, s, chunk)
    case Connected(a, p) => PeerConnected(v, cfg, s, a, p)
    case Failed(err, a, p) => PeerError(s, err, a, p)
    case Disconnected => Close(s)
    case PeerData(d) => if d == [] then s else Send(s, PeerBytes(d))
    case Hangup => Close(s)
  }

  function Run(v: Variant, cfg: Config, s: Session, es: seq<Event>): Session
    decreases |es|
  {
    if es == [] then s else Run(v, cfg, Step(v, cfg, s, es[0]), es[1..])
  }

  // ---------------------------------------------------------------- after a close

  /** What the slots do when they are called no matter what state the session is in, as by a signal that was queued
      before slotClose disconnected it. */
  function Late(v: Variant, cfg: Config, s: Session, e: Event): Session {
    match e
    case Data(chunk) => SlotRead(v, cfg, s, chunk)
    case Connected(a, p) => PeerConnected(v, cfg, s, a, p)
    case Failed(err, a, p) => PeerError(s, err, a, p)
    case Disconnected => Close(s)
    case PeerData(d) => if d == [] then s else Send(s, PeerBytes(d))
    case Hangup => Close(s)
  }

  function LateRun(v: Variant, cfg: Config, s: Session, es: seq<Event>): Session
    decreases |es|
  {
    if es == [] then s else LateRun(v, cfg, Late(v, cfg, s, es[0]), es[1..])
  }

  /** Still closed, and nothing sent, forwarded or dialled. */
  predicate Silent(s: Session, t: Session) {
    !t.open && t.sent == s.sent && t.forwarded == s.forwarded && t.dials == s.dials
  }

  lemma ClosedSlotRead(v: Variant, cfg: Config, s: Session, incoming: seq<byte>)
    requires !s.open
    ensures SlotRead(v, cfg, s, incoming) == if s.status.Forward? then s else Trap(s)
  {
  }

  lemma ClosedRemove(v: Variant, cfg: Config, s: Session, n: int)
    requires !s.open
    ensures Silent(s, Remove(v, cfg, s, n))
  {
    if 0 <= n < |s.buf| {
      ClosedSlotRead(v, cfg, s.(buf := s.buf[n..], consumed := s.consumed + [s.buf[..n]]), []);
    }
  }

  /** After slotClose no slot sends, forwards or dials anything, in whatever order they are called; a read before the
      Forward stage runs into the null socket. */
  lemma {:induction false} SilentAfterClose(v: Variant, cfg: Config, s: Session, es: seq<Event>)
    requires !s.open
    ensures Silent(s, LateRun(v, cfg, s, es))
    decreases |es|
  {
    if es == [] {
    } else {
      match es[0] {
        case Data(chunk) => ClosedSlotRead(v, cfg, s, chunk);
        case Connected(a, p) =>
          ClosedRemove(v, cfg, ProcessReply(s, SUCCEEDED, a, p).(status := Forward, peer := Linked), s.targetLen);
        case _ =>
      }
      SilentAfterClose(v, cfg, Late(v, cfg, s, es[0]), es[1..]);
    }
  }

  // ---------------------------------------------------------------- the octets on the socket

  /** The octets of one reply or relayed block on the client's socket. */
  function OutputBytes(o: Output): seq<byte> {
    match o
    case MethodReply(choice) => [VERSION, choice]
    case LoginReply(status) => [1, status]
    case RequestReply(version, code, a, p) => EncodeReply(version, code, a, p)
    case PeerBytes(d) => d
  }

  function Wire(sent: seq<Output>): seq<byte> {
    if sent == [] then [] else Wire(sent[..|sent| - 1]) + OutputBytes(sent[|sent| - 1])
  }

  lemma WirePush(sent: seq<Output>, o: Output)
    ensures Wire(sent + [o]) == Wire(sent) + OutputBytes(o)
  {
    assert (sent + [o])[..|sent|] == sent;
  }
}
