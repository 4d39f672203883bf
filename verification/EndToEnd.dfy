/** A SOCKS5 session that dials through the tunnel: the two state machines run together, and the errors of the
    target reach the client as they would without the tunnel. */
module EndToEnd {
  import opened Bytes
  import Decimal
  import opened PeerConnector
  import opened Readings
  import DataChannel
  import opened Socks5Frames
  import opened Socks5Session
  import S = Socks5Session
  import C = Socks5Chunking
  import Runs = Socks5Runs
  import F = Socks5Safety
  import T = Tunnel
  import P = TunnelProgress
  import TunnelCodec
  import opened TunnelSides

  // ---------------------------------------------------------------- the dial fits the tunnel

  /** Whatever host a request names, its dial text is free of NULs and at most 255 octets long. */
  lemma HostTextFits(buf: seq<byte>)
    requires ParseRequest(buf).Some? && ParseRequest(buf).value.Target?
    ensures |HostText(ParseRequest(buf).value.address)| <= 255
    ensures 0 !in HostText(ParseRequest(buf).value.address)
  {
    match ParseRequest(buf).value.address
    case IPv4(q) => Decimal.DottedLength(q);
    case Domain(name) => CStrIsPrefix(name);
  }

  // ---------------------------------------------------------------- error transparency

  /** How a failed dial ends for the client: with a reply code, or silently. */
  datatype Ending = Answered(code: byte) | Silent | Unended

  function EndingOf(before: Session, after: Session): Ending {
    if after.open then Unended
    else if |after.sent| == |before.sent| then Silent
    else if |after.sent| > 0 && after.sent[|after.sent| - 1].RequestReply? then Answered(after.sent[|after.sent| - 1].code)
    else Unended
  }

  /** What a failed dial ends with, error by error. */
  lemma DirectEnding(v: Variant, cfg: Config, s: Session, e: SocketError, a: HostAddress, p: port)
    requires Live(s) && s.status.ClientRequest? && s.peer.Dialling?
    ensures EndingOf(s, Step(v, cfg, s, Failed(SlotError(e), a, p))) ==
              match e
              case ConnectionRefusedError => Answered(5)
              case HostNotFoundError => Answered(4)
              case SocketAccessError => Answered(2)
              case _ => Silent
  {
  }

  /** What a direct connector tells the session when its target goes. */
  function DirectEvent(f: T.Fate, a: HostAddress, p: port): S.Event {
    match f
    case Reported(err) => Failed(err, a, p)
    case Gone => Disconnected
  }

  /** For every run of the tunnel in which the target goes before it has connected and the client connector has
      signalled that: the session ends as it would have ended with a direct connector if and only if the target
      reported an error. A disconnect is the one case that differs: the tunnel turns it into "not allowed". */
  lemma EndingsAgreeExact(v: Variant, cfg: Config, s: Session, steps: seq<T.Step>,
                          a: HostAddress, p: port, a': HostAddress, p': port)
    requires Live(s) && s.status.ClientRequest? && s.peer.Dialling?
    requires |s.target.host| <= TunnelCodec.MaxHost(v) && 0 !in s.target.host
    requires var t := T.Run(v, T.Start(s.target.host, s.target.port), steps);
             t.failure != [] && t.c.signals != []
    ensures var t := T.Run(v, T.Start(s.target.host, s.target.port), steps);
            |t.failure| == 1 && t.c.signals == [SigError(T.Code(t.failure[0]))]
            && var tunnelled := EndingOf(s, Step(v, cfg, s, Failed(t.c.signals[0].code, a, p)));
               var direct := EndingOf(s, Step(v, cfg, s, DirectEvent(t.failure[0], a', p')));
               (tunnelled == direct <==> t.failure[0].Reported?)
               && (t.failure[0].Gone? ==> tunnelled == Answered(2) && direct == Silent)
  {
    T.SignalsOnce(v, s.target.host, s.target.port, steps);
    var f := T.Run(v, T.Start(s.target.host, s.target.port), steps).failure[0];
    FailedEnding(v, cfg, s, T.Code(f), a, p);
    FailedEnding(v, cfg, s, T.Code(f), a', p');
  }

  /** How the session ends on an error, whatever the local address. */
  lemma FailedEnding(v: Variant, cfg: Config, s: Session, err: int, a: HostAddress, p: port)
    requires Live(s) && s.status.ClientRequest? && s.peer.Dialling?
    ensures EndingOf(s, Step(v, cfg, s, Failed(err, a, p)))
         == match ErrorReply(err) case Some(code) => Answered(code) case None => Silent
  {
  }

  /** In particular for every socket error, with the reply code it leads to. */
  lemma ErrorTransparency(v: Variant, cfg: Config, s: Session, steps: seq<T.Step>, e: SocketError,
                          a: HostAddress, p: port, a': HostAddress, p': port)
    requires Live(s) && s.status.ClientRequest? && s.peer.Dialling?
    requires |s.target.host| <= TunnelCodec.MaxHost(v) && 0 !in s.target.host
    requires var t := T.Run(v, T.Start(s.target.host, s.target.port), steps);
             t.failure == [T.Reported(SlotError(e))] && !t.c.closed
    ensures var t := T.Run(v, T.Start(s.target.host, s.target.port), steps);
            var u := T.Run(v, t, P.Drain(T.DownArrives, |t.down|, T.ClientReads));
            u.c.signals == [SigError(SlotError(e))]
            && EndingOf(s, Step(v, cfg, s, Failed(u.c.signals[0].code, a, p)))
            == EndingOf(s, Step(v, cfg, s, Failed(SlotError(e), a', p')))
            == match e
               case ConnectionRefusedError => Answered(5)
               case HostNotFoundError => Answered(4)
               case SocketAccessError => Answered(2)
               case _ => Silent
  {
    P.FailureArrives(v, s.target.host, s.target.port, steps);
    DirectEnding(v, cfg, s, e, a, p);
    DirectEnding(v, cfg, s, e, a', p');
  }

  /** For every target there is a run of the tunnel in which a disconnect ends the session with code 2, where a direct
      connector ends it silently. */
  lemma DisconnectDiffers(v: Variant, cfg: Config, s: Session, a: HostAddress, p: port)
    requires Live(s) && s.status.ClientRequest? && s.peer.Dialling?
    requires |s.target.host| <= TunnelCodec.MaxHost(v) && 0 !in s.target.host
    ensures var steps := [T.Open, T.UpArrives, T.ServerReads] + [T.TargetDisconnects, T.DownArrives, T.ClientReads];
            var t := T.Run(v, T.Start(s.target.host, s.target.port), steps);
            t.failure == [T.Gone] && t.c.signals == [SigError(ERROR_NOT_ALLOWED)]
            && EndingOf(s, Step(v, cfg, s, Failed(t.c.signals[0].code, a, p))) == Answered(2)
            && EndingOf(s, Step(v, cfg, s, Disconnected)) == Silent
  {
    P.FailureCompletes(v, s.target.host, s.target.port, T.Gone);
    var steps := [T.Open, T.UpArrives, T.ServerReads] + [T.TargetDisconnects, T.DownArrives, T.ClientReads];
    EndingsAgreeExact(v, cfg, s, steps, a, p, a, p);
  }

  // ---------------------------------------------------------------- session and tunnel together

  /** `tunnel` is the connector that CreatePeer made for the dial, with everything behind it. */
  datatype World = World(session: Session, tunnel: Option<T.Tunnel>)

  datatype Event =
    | ClientSends(chunk: seq<byte>)
    | ClientLeaves
    | TunnelMoves(step: T.Step, address: HostAddress)     // the address the bind text stands for

  function NewWorld(): World {
    World(Fresh(), None)
  }

  /** The octets that `after` holds beyond `before`. */
  function Beyond(before: seq<byte>, after: seq<byte>): seq<byte> {
    if |before| <= |after| then after[|before|..] else []
  }

  /** What the session does to its connector: it writes what it forwards, and closes the connector with itself. */
  function Drive(v: Variant, t: T.Tunnel, before: Session, after: Session): T.Tunnel {
    var d := Beyond(before.forwarded, after.forwarded);
    var t1 := if d != [] then T.Take(v, t, T.LocalWrites(d)) else t;
    if Live(after) then t1 else T.Take(v, t1, T.LocalCloses)
  }

  function SignalEvent(signal: Signal, a: HostAddress, p: port): S.Event {
    match signal
    case SigConnected => Connected(a, p)
    case SigError(code) => Failed(code, NullAddress, 0)
  }

  /** What the connector does to its session: it signals, and then hands over what it has read. */
  function Hear(v: Variant, cfg: Config, s: Session, before: Client, after: Client, a: HostAddress): Session {
    if |after.signals| > |before.signals|
    then Step(v, cfg, s, SignalEvent(after.signals[|after.signals| - 1], a, after.bindPort))
    else s
  }

  function Next(v: Variant, cfg: Config, w: World, e: Event): World {
    match e
    case ClientSends(chunk) =>
      var s := Step(v, cfg, w.session, Data(chunk));
      if w.tunnel.Some? then World(s, Some(Drive(v, w.tunnel.value, w.session, s)))
      else if |s.dials| > |w.session.dials| then World(s, Some(T.Start(s.target.host, s.target.port)))
      else World(s, None)
    case ClientLeaves =>
      var s := Step(v, cfg, w.session, Hangup);
      World(s, if w.tunnel.Some? then Some(Drive(v, w.tunnel.value, w.session, s)) else None)
    case TunnelMoves(step, a) =>
      if w.tunnel.None? || step.LocalWrites? || step.LocalCloses? then w
      else
        var t := w.tunnel.value;
        var t1 := T.Take(v, t, step);
        var s1 := Hear(v, cfg, w.session, t.c, t1.c, a);
        var t2 := Drive(v, t1, w.session, s1);
        var g := Beyond(t.c.given, t1.c.given);
        World(Relay(v, cfg, s1, g), Some(t2))
  }

  function Run(v: Variant, cfg: Config, w: World, es: seq<Event>): World
    decreases |es|
  {
    if es == [] then w else Run(v, cfg, Next(v, cfg, w, es[0]), es[1..])
  }

  /** The octets relayed to the client. */
  function Relayed(sent: seq<Output>): seq<byte> {
    if sent == [] then []
    else Relayed(sent[..|sent| - 1]) + if sent[|sent| - 1].PeerBytes? then sent[|sent| - 1].data else []
  }

  lemma RelayedPush(sent: seq<Output>, o: Output)
    ensures Relayed(sent + [o]) == Relayed(sent) + if o.PeerBytes? then o.data else []
  {
    assert (sent + [o])[..|sent|] == sent;
  }

  predicate Linked(w: World)
    requires w.tunnel.Some?
  {
    var s, t := w.session, w.tunnel.value;
    s.dials == [Endpoint(t.c.host, t.c.port)]
    && s.forwarded == t.localSent && Relayed(s.sent) == t.c.given
    && (Live(s) <==> !t.c.closed)
    && (Live(s) ==> if t.c.mode.Connect? then s.peer.Dialling? && t.c.signals == [] else s.peer.Linked?)
  }

  /** The tunnel's invariant, or the written tunnel with a host that its length octet cannot say. */
  predicate Sound(v: Variant, t: T.Tunnel) {
    T.Inv(v, t) || (v.Written? && T.Stuck(t))
  }

  lemma TakeSound(v: Variant, t: T.Tunnel, step: T.Step)
    requires Sound(v, t)
    ensures Sound(v, T.Take(v, t, step))
  {
    if T.Inv(v, t) {
      T.TakeInv(v, t, step);
    } else {
      T.TakeStuck(t, step);
    }
  }

  predicate Inv(v: Variant, cfg: Config, w: World) {
    F.Inv(v, cfg, w.session)
    && (w.tunnel.None? ==> w.session.dials == [] && Relayed(w.session.sent) == [])
    && (w.tunnel.Some? ==> Sound(v, w.tunnel.value) && Linked(w))
  }

  // ---------------------------------------------------------------- what a session event does

  /** Before the Forward stage the client has been sent no peer bytes. */
  lemma {:induction false} NothingRelayedYet(sent: seq<Output>)
    requires !F.PhaseOf(sent).Relaying? && !F.PhaseOf(sent).Bad?
    ensures Relayed(sent) == []
  {
    if sent == [] {
    } else {
      NothingRelayedYet(sent[..|sent| - 1]);
    }
  }

  /** Handling what is in the buffer never reaches Forward, forwards nothing, and dials at most once. */
  predicate Kept(s: Session, after: Session) {
    !after.status.Forward? && after.forwarded == s.forwarded
    && ((after.dials == s.dials && (after.peer == s.peer || after.peer.NoPeer?))
        || (Live(after) && after.peer.Dialling? && after.dials == s.dials + [after.target]))
  }

  lemma RequestKept(v: Variant, s: Session)
    requires Live(s) && s.status.ClientRequest?
    ensures Kept(s, ProcessClientRequest(v, s))
  {
    var r := ParseRequest(s.buf);
    if r.Some? && r.value.Target? && !s.peer.Dialling? {
      DialKept(s.(target := Endpoint(HostText(r.value.address), r.value.port), targetLen := r.value.len));
    }
  }

  lemma DialKept(s: Session)
    requires Live(s) && s.status.ClientRequest?
    ensures Kept(s, ProcessConnect(s))
  {
  }

  lemma LoginKept(v: Variant, cfg: Config, s: Session)
    requires Live(s) && s.status.Authentication?
    ensures Kept(s, ProcessAuthenticator(v, cfg, s))
  {
    if s.chosen == NO_AUTHENTICATION {
      var t := s.(status := ClientRequest);
      C.StageHandler(v, cfg, t);
      RequestKept(v, t);
    } else if s.chosen == USER_PASSWORD && ParseLogin(s.buf).Some? && ParseLogin(s.buf).value.Login? {
      CompleteLoginKept(v, cfg, s, ParseLogin(s.buf).value);
    }
  }

  lemma CompleteLoginKept(v: Variant, cfg: Config, s: Session, l: Login)
    requires Live(s) && s.status.Authentication? && s.chosen == USER_PASSWORD && ParseLogin(s.buf) == Some(l) && l.Login?
    ensures Kept(s, ProcessAuthenticator(v, cfg, s))
  {
    LoginExtend(s.buf, []);
    assert s.buf + [] == s.buf;
    if Credentials(cfg, l) {
      if v.Intended? {
        var u := Send(s, LoginReply(0)).(status := ClientRequest);
        assert ProcessAuthenticator(v, cfg, s) == Remove(v, cfg, u, l.len);
        C.RemoveFrame(v, cfg, u, l.len);
        RequestKept(v, C.Taken(u, l.len));
      }
    } else {
      C.RemoveClosed(v, cfg, Close(Send(s, LoginReply(255))).(status := ClientRequest), l.len);
    }
  }

  lemma NegotiateKept(v: Variant, cfg: Config, s: Session)
    requires Live(s) && s.status.Negotiate?
    ensures Kept(s, ProcessNegotiate(v, cfg, s))
  {
    if ParseMethods(v, s.buf).Some? {
      var m := ParseMethods(v, s.buf).value;
      var chosen := Select(cfg.methods, m.offered);
      var u := Send(s, MethodReply(chosen)).(chosen := chosen, status := Authentication);
      if 0 <= m.len {
        C.RemoveFrame(v, cfg, u, m.len);
        LoginKept(v, cfg, C.Taken(u, m.len));
      }
    }
  }

  lemma DataKept(v: Variant, cfg: Config, s: Session, chunk: seq<byte>)
    requires Live(s) && !s.status.Forward?
    ensures Kept(s, Step(v, cfg, s, Data(chunk)))
  {
    var g := C.Grown(s, chunk);
    match s.status
    case Negotiate => NegotiateKept(v, cfg, g);
    case Authentication => LoginKept(v, cfg, g);
    case ClientRequest => RequestKept(v, g);
  }

  /** Data before the dial: the session may dial, for a host that fits the tunnel. */
  lemma DataBeforeDial(v: Variant, cfg: Config, s: Session, chunk: seq<byte>)
    requires Live(s) && F.Inv(v, cfg, s) && s.peer.NoPeer?
    ensures var s' := Step(v, cfg, s, Data(chunk));
            F.Inv(v, cfg, s') && s'.forwarded == [] && Relayed(s'.sent) == []
            && if s'.peer.Dialling? then
                 Live(s') && s'.dials == [s'.target] && |s'.target.host| <= 255 && 0 !in s'.target.host
               else s'.dials == []
  {
    var s' := Step(v, cfg, s, Data(chunk));
    F.StepInv(v, cfg, s, Data(chunk));
    DataKept(v, cfg, s, chunk);
    NothingRelayedYet(s'.sent);
    if s'.peer.Dialling? {
      HostTextFits(s'.buf[..s'.targetLen]);
    }
  }

  /** Data while the dial is pending waits; as written it traps. */
  lemma DataWhileDialling(v: Variant, cfg: Config, s: Session, chunk: seq<byte>)
    requires Live(s) && F.Inv(v, cfg, s) && s.peer.Dialling?
    ensures var s' := Step(v, cfg, s, Data(chunk));
            s'.forwarded == s.forwarded && s'.sent == s.sent && s'.dials == s.dials
            && (if v.Written? then s'.halt.Trapped? else Live(s') && s'.peer.Dialling? && s'.target == s.target)
  {
    C.ReadRequestStage(v, cfg, s, chunk);
    F.PendingStays(s, chunk);
  }

  /** Data in the Forward stage is forwarded. */
  lemma DataForwarded(v: Variant, cfg: Config, s: Session, chunk: seq<byte>)
    requires Live(s) && F.Inv(v, cfg, s) && s.peer.Linked?
    ensures var s' := Step(v, cfg, s, Data(chunk));
            Live(s') && s'.peer.Linked? && s'.sent == s.sent && s'.dials == s.dials
            && s'.forwarded == s.forwarded + chunk
  {
    assert s.buf == [] ==> s.forwarded + s.buf + chunk == s.forwarded + chunk;
  }

  /** Success: the client is told, and what waited behind the request is forwarded. */
  lemma ConnectedEffect(v: Variant, cfg: Config, s: Session, a: HostAddress, p: port)
    requires Live(s) && F.Inv(v, cfg, s) && s.peer.Dialling?
    ensures var s' := Step(v, cfg, s, Connected(a, p));
            F.Inv(v, cfg, s') && Live(s') && s'.peer.Linked? && s'.dials == s.dials
            && s.forwarded == [] && s.targetLen <= |s.buf|
            && s'.forwarded == (if v.Written? then [] else s.buf[s.targetLen..]) && Relayed(s'.sent) == Relayed(s.sent)
  {
    F.StepInv(v, cfg, s, Connected(a, p));
    var r := ProcessReply(s, SUCCEEDED, a, p);
    var u := r.(status := Forward, peer := Peer.Linked);
    F.RemoveForward(v, cfg, u, s.targetLen);
    RelayedPush(s.sent, RequestReply(s.buf[0], SUCCEEDED, a, p));
  }

  /** Failure of a pending dial: the session ends. */
  lemma FailedEffect(v: Variant, cfg: Config, s: Session, err: int)
    requires Live(s) && F.Inv(v, cfg, s) && s.peer.Dialling?
    ensures var s' := Step(v, cfg, s, Failed(err, NullAddress, 0));
            F.Inv(v, cfg, s') && !Live(s') && s'.dials == s.dials
            && s'.forwarded == s.forwarded && Relayed(s'.sent) == Relayed(s.sent)
  {
    F.StepInv(v, cfg, s, Failed(err, NullAddress, 0));
    FailedStep(v, cfg, s, err);
    DialPending(v, cfg, s);
    DialFailed(s, err);
  }

  lemma FailedStep(v: Variant, cfg: Config, s: Session, err: int)
    requires Live(s) && s.peer.Dialling?
    ensures Step(v, cfg, s, Failed(err, NullAddress, 0)) == PeerError(s, err, NullAddress, 0)
  {
  }

  lemma DialPending(v: Variant, cfg: Config, s: Session)
    requires Live(s) && F.Inv(v, cfg, s) && s.peer.Dialling?
    ensures s.buf != [] && s.status.ClientRequest?
  {
  }

  lemma DialFailed(s: Session, err: int)
    requires Live(s) && s.buf != [] && !s.status.Forward?
    ensures var s' := PeerError(s, err, NullAddress, 0);
            !Live(s') && s'.dials == s.dials && s'.forwarded == s.forwarded && Relayed(s'.sent) == Relayed(s.sent)
  {
    if ErrorReply(err).Some? {
      RefusalEffect(s, ErrorReply(err).value);
    }
  }

  lemma RefusalEffect(s: Session, code: byte)
    requires Live(s) && s.buf != [] && code != SUCCEEDED
    ensures var s' := ProcessReply(s, code, NullAddress, 0);
            !Live(s') && s'.dials == s.dials && s'.forwarded == s.forwarded && Relayed(s'.sent) == Relayed(s.sent)
  {
    RelayedPush(s.sent, RequestReply(s.buf[0], code, NullAddress, 0));
  }

  lemma PeerDataEffect(v: Variant, cfg: Config, s: Session, g: seq<byte>)
    requires Live(s) && F.Inv(v, cfg, s) && s.peer.Linked? && g != []
    ensures var s' := Step(v, cfg, s, PeerData(g));
            F.Inv(v, cfg, s') && Live(s') && s'.peer.Linked? && s'.dials == s.dials
            && s'.forwarded == s.forwarded && Relayed(s'.sent) == Relayed(s.sent) + g
  {
    F.StepInv(v, cfg, s, PeerData(g));
    RelayedPush(s.sent, PeerBytes(g));
  }

  /** Handing over what the connector read, nothing included. */
  function Relay(v: Variant, cfg: Config, s: Session, g: seq<byte>): Session {
    if g != [] then Step(v, cfg, s, PeerData(g)) else s
  }

  lemma RelayEffect(v: Variant, cfg: Config, s: Session, g: seq<byte>)
    requires Live(s) && F.Inv(v, cfg, s) && s.peer.Linked?
    ensures var s' := Relay(v, cfg, s, g);
            F.Inv(v, cfg, s') && Live(s') && s'.peer.Linked? && s'.dials == s.dials
            && s'.forwarded == s.forwarded && Relayed(s'.sent) == Relayed(s.sent) + g
  {
    if g != [] {
      PeerDataEffect(v, cfg, s, g);
    }
  }

  lemma HangupEffect(v: Variant, cfg: Config, s: Session)
    requires F.Inv(v, cfg, s)
    ensures var s' := Step(v, cfg, s, Hangup);
            F.Inv(v, cfg, s') && !Live(s') && s'.dials == s.dials
            && s'.forwarded == s.forwarded && s'.sent == s.sent
  {
    F.StepInv(v, cfg, s, Hangup);
  }

  // ---------------------------------------------------------------- what a tunnel step does to the client connector

  predicate SameClient(c: Client, d: Client) {
    c.mode == d.mode && c.signals == d.signals && c.given == d.given && c.closed == d.closed
    && c.host == d.host && c.port == d.port
  }

  lemma OtherTunnelStep(v: Variant, t: T.Tunnel, step: T.Step)
    requires !step.ClientReads? && !step.LocalWrites? && !step.LocalCloses?
    ensures SameClient(t.c, T.Take(v, t, step).c)
    ensures T.Take(v, t, step).localSent == t.localSent
  {
  }

  lemma ClientReadsEffect(v: Variant, t: T.Tunnel)
    requires T.Inv(v, t) && T.Enabled(t, T.ClientReads)
    ensures var t1 := T.Take(v, t, T.ClientReads);
            t1.localSent == t.localSent && t1.c.host == t.c.host && t1.c.port == t.c.port
            && t.c.given <= t1.c.given
            && if t.c.mode.Forword? then
                 t1.c.mode.Forword? && t1.c.signals == t.c.signals && t1.c.closed == t.c.closed
               else if t.s.mode.Forword? then
                 t1.c.mode.Forword? && t1.c.signals == [SigConnected] && t1.c.closed == t.c.closed
               else
                 t1.c.mode.Connect? && |t1.c.signals| == 1 && t1.c.signals[0].SigError? && t1.c.closed
                 && t1.c.given == t.c.given
  {
    if t.c.mode.Connect? {
      if t.s.mode.Forword? {
        T.SuccessHeard(v, t);
      } else {
        T.FailureHeard(v, t);
      }
    }
  }

  lemma WriteEffect(v: Variant, t: T.Tunnel, d: seq<byte>)
    requires Sound(v, t) && t.c.mode.Forword? && !t.c.closed
    ensures var t1 := T.Take(v, t, T.LocalWrites(d));
            Sound(v, t1) && SameClient(t.c, t1.c) && t1.localSent == t.localSent + d
  {
    TakeSound(v, t, T.LocalWrites(d));
  }

  lemma CloseEffect(v: Variant, t: T.Tunnel)
    requires Sound(v, t)
    ensures var t1 := T.Take(v, t, T.LocalCloses);
            Sound(v, t1) && t1.localSent == t.localSent && SameClient(t.c.(closed := true), t1.c)
  {
    TakeSound(v, t, T.LocalCloses);
  }

  /** What the session's writes and its end do to the tunnel. */
  lemma DriveEffect(v: Variant, t: T.Tunnel, before: Session, after: Session)
    requires Sound(v, t)
    requires before.forwarded <= after.forwarded
    requires after.forwarded != before.forwarded ==> t.c.mode.Forword? && !t.c.closed
    ensures var t1 := Drive(v, t, before, after);
            Sound(v, t1)
            && SameClient(t.c.(closed := t.c.closed || !Live(after)), t1.c)
            && t1.localSent == t.localSent + Beyond(before.forwarded, after.forwarded)
  {
    var d := Beyond(before.forwarded, after.forwarded);
    var t1 := if d != [] then T.Take(v, t, T.LocalWrites(d)) else t;
    if d != [] {
      WriteEffect(v, t, d);
    }
    CloseEffect(v, t1);
  }

  lemma BeyondRestores(a: seq<byte>, b: seq<byte>)
    requires a <= b
    ensures a + Beyond(a, b) == b
  {
  }

  // ---------------------------------------------------------------- preservation

  lemma ClientSendsInv(v: Variant, cfg: Config, w: World, chunk: seq<byte>)
    requires Inv(v, cfg, w)
    ensures Inv(v, cfg, Next(v, cfg, w, ClientSends(chunk)))
  {
    var s := w.session;
    var s1 := Step(v, cfg, s, Data(chunk));
    F.StepInv(v, cfg, s, Data(chunk));
    if w.tunnel.None? {
      if Live(s) {
        DataBeforeDial(v, cfg, s, chunk);
        if s1.peer.Dialling? && |s1.target.host| <= TunnelCodec.MaxHost(v) {
          T.StartInv(v, s1.target.host, s1.target.port);
        }
      }
    } else {
      var t := w.tunnel.value;
      if Live(s) && s.peer.Linked? {
        DataForwarded(v, cfg, s, chunk);
      } else if Live(s) {
        DataWhileDialling(v, cfg, s, chunk);
      }
      DriveEffect(v, t, s, s1);
      BeyondRestores(s.forwarded, s1.forwarded);
    }
  }

  lemma ClientLeavesInv(v: Variant, cfg: Config, w: World)
    requires Inv(v, cfg, w)
    ensures Inv(v, cfg, Next(v, cfg, w, ClientLeaves))
  {
    var s1 := Step(v, cfg, w.session, Hangup);
    HangupEffect(v, cfg, w.session);
    if w.tunnel.Some? {
      DriveEffect(v, w.tunnel.value, w.session, s1);
      BeyondRestores(w.session.forwarded, s1.forwarded);
    }
  }

  lemma TunnelMovesInv(v: Variant, cfg: Config, w: World, step: T.Step, a: HostAddress)
    requires Inv(v, cfg, w)
    ensures Inv(v, cfg, Next(v, cfg, w, TunnelMoves(step, a)))
  {
    if w.tunnel.Some? && !step.LocalWrites? && !step.LocalCloses? {
      var s, t := w.session, w.tunnel.value;
      var t1 := T.Take(v, t, step);
      if !step.ClientReads? || !T.Enabled(t, step) {
        QuietStep(v, cfg, w, step, a);
      } else {
        ClientReadsEffect(v, t);
        if t.c.mode.Forword? {
          RelayStep(v, cfg, w, a);
        } else if t.s.mode.Forword? {
          LinkStep(v, cfg, w, a);
        } else {
          FailStep(v, cfg, w, a);
        }
      }
    }
  }

  /** The parts of a tunnel step, by name. */
  lemma MoveIs(v: Variant, cfg: Config, w: World, step: T.Step, a: HostAddress)
    requires w.tunnel.Some? && !step.LocalWrites? && !step.LocalCloses?
    ensures var t := w.tunnel.value;
            var t1 := T.Take(v, t, step);
            var s1 := Hear(v, cfg, w.session, t.c, t1.c, a);
            Next(v, cfg, w, TunnelMoves(step, a))
              == World(Relay(v, cfg, s1, Beyond(t.c.given, t1.c.given)), Some(Drive(v, t1, w.session, s1)))
  {
  }

  /** A step that the client connector does not notice. */
  lemma QuietStep(v: Variant, cfg: Config, w: World, step: T.Step, a: HostAddress)
    requires Inv(v, cfg, w) && w.tunnel.Some? && !step.LocalWrites? && !step.LocalCloses?
    requires !step.ClientReads? || !T.Enabled(w.tunnel.value, step)
    ensures Inv(v, cfg, Next(v, cfg, w, TunnelMoves(step, a)))
  {
    var s, t := w.session, w.tunnel.value;
    var t1 := T.Take(v, t, step);
    TakeSound(v, t, step);
    if !step.ClientReads? {
      OtherTunnelStep(v, t, step);
    }
    assert Hear(v, cfg, s, t.c, t1.c, a) == s;
    Undisturbed(v, cfg, s, t1);
    assert Beyond(t.c.given, t1.c.given) == [];
    MoveIs(v, cfg, w, step, a);
  }

  /** A tunnel that drove nothing stays in step with its session. */
  lemma Undisturbed(v: Variant, cfg: Config, s: Session, t: T.Tunnel)
    requires F.Inv(v, cfg, s) && Sound(v, t) && Linked(World(s, Some(t)))
    ensures Inv(v, cfg, World(s, Some(Drive(v, t, s, s))))
  {
    DriveEffect(v, t, s, s);
    assert Beyond(s.forwarded, s.forwarded) == [];
  }

  /** A read in FORWORD relays to the client. */
  lemma RelayStep(v: Variant, cfg: Config, w: World, a: HostAddress)
    requires Inv(v, cfg, w) && w.tunnel.Some? && T.Enabled(w.tunnel.value, T.ClientReads)
    requires w.tunnel.value.c.mode.Forword?
    ensures Inv(v, cfg, Next(v, cfg, w, TunnelMoves(T.ClientReads, a)))
  {
    var s, t := w.session, w.tunnel.value;
    var t1 := T.Take(v, t, T.ClientReads);
    T.TakeInv(v, t, T.ClientReads);
    ClientReadsEffect(v, t);
    assert Hear(v, cfg, s, t.c, t1.c, a) == s;
    LinkedAfter(v, cfg, s, s, t, t1);
    MoveIs(v, cfg, w, T.ClientReads, a);
  }

  /** The read that finds the success reply links the session, and relays what stood behind the reply. */
  lemma LinkStep(v: Variant, cfg: Config, w: World, a: HostAddress)
    requires Inv(v, cfg, w) && w.tunnel.Some? && T.Enabled(w.tunnel.value, T.ClientReads)
    requires w.tunnel.value.c.mode.Connect? && w.tunnel.value.s.mode.Forword?
    ensures Inv(v, cfg, Next(v, cfg, w, TunnelMoves(T.ClientReads, a)))
  {
    var s, t := w.session, w.tunnel.value;
    var t1 := T.Take(v, t, T.ClientReads);
    LinkTunnel(v, t);
    ConnectedEffect(v, cfg, s, a, t1.c.bindPort);
    var s1 := Step(v, cfg, s, Connected(a, t1.c.bindPort));
    assert t.c.signals == [];
    HearsConnection(v, cfg, s, t.c, t1.c, a);
    LinkedAfter(v, cfg, s, s1, t, t1);
    MoveIs(v, cfg, w, T.ClientReads, a);
  }

  lemma LinkTunnel(v: Variant, t: T.Tunnel)
    requires T.Inv(v, t) && T.Enabled(t, T.ClientReads)
    requires t.c.mode.Connect? && t.s.mode.Forword?
    ensures var t1 := T.Take(v, t, T.ClientReads);
            T.Inv(v, t1) && t1.c.mode.Forword? && !t1.c.closed
            && t1.c.signals == [SigConnected] && t1.c.host == t.c.host && t1.c.port == t.c.port
            && t.localSent == [] && t1.localSent == [] && t.c.given <= t1.c.given
  {
    T.TakeInv(v, t, T.ClientReads);
    ClientReadsEffect(v, t);
  }

  lemma LinkedAfter(v: Variant, cfg: Config, s: Session, s1: Session, t: T.Tunnel, t1: T.Tunnel)
    requires F.Inv(v, cfg, s1) && Live(s1) && s1.peer.Linked?
    requires s.forwarded <= s1.forwarded && t1.localSent == s.forwarded
    requires T.Inv(v, t1) && t1.c.mode.Forword? && !t1.c.closed
    requires Relayed(s1.sent) == t.c.given && t.c.given <= t1.c.given
    requires s1.dials == [Endpoint(t1.c.host, t1.c.port)]
    ensures Inv(v, cfg, World(Relay(v, cfg, s1, Beyond(t.c.given, t1.c.given)), Some(Drive(v, t1, s, s1))))
  {
    DriveEffect(v, t1, s, s1);
    BeyondRestores(s.forwarded, s1.forwarded);
    BeyondRestores(t.c.given, t1.c.given);
    RelayEffect(v, cfg, s1, Beyond(t.c.given, t1.c.given));
  }

  /** The read that finds an error reply ends the session. */
  lemma FailStep(v: Variant, cfg: Config, w: World, a: HostAddress)
    requires Inv(v, cfg, w) && w.tunnel.Some? && T.Enabled(w.tunnel.value, T.ClientReads)
    requires w.tunnel.value.c.mode.Connect? && w.tunnel.value.s.mode.Connect?
    ensures Inv(v, cfg, Next(v, cfg, w, TunnelMoves(T.ClientReads, a)))
  {
    var s, t := w.session, w.tunnel.value;
    var t1 := T.Take(v, t, T.ClientReads);
    T.TakeInv(v, t, T.ClientReads);
    ClientReadsEffect(v, t);
    var err := t1.c.signals[0].code;
    FailedEffect(v, cfg, s, err);
    var s1 := Step(v, cfg, s, Failed(err, NullAddress, 0));
    assert t.c.signals == [];
    HearsFailure(v, cfg, s, t.c, t1.c, a);
    UnlinkedAfter(v, cfg, s, s1, t1);
    assert Beyond(t.c.given, t1.c.given) == [];
    MoveIs(v, cfg, w, T.ClientReads, a);
  }

  lemma HearsConnection(v: Variant, cfg: Config, s: Session, before: Client, after: Client, a: HostAddress)
    requires before.signals == [] && after.signals == [SigConnected]
    ensures Hear(v, cfg, s, before, after, a) == Step(v, cfg, s, Connected(a, after.bindPort))
  {
  }

  lemma HearsFailure(v: Variant, cfg: Config, s: Session, before: Client, after: Client, a: HostAddress)
    requires before.signals == [] && |after.signals| == 1 && after.signals[0].SigError?
    ensures Hear(v, cfg, s, before, after, a)
         == Step(v, cfg, s, Failed(after.signals[0].code, NullAddress, 0))
  {
  }

  lemma UnlinkedAfter(v: Variant, cfg: Config, s: Session, s1: Session, t1: T.Tunnel)
    requires F.Inv(v, cfg, s1) && !Live(s1)
    requires s1.forwarded == s.forwarded == t1.localSent
    requires T.Inv(v, t1)
    requires Relayed(s1.sent) == t1.c.given && s1.dials == [Endpoint(t1.c.host, t1.c.port)]
    ensures Inv(v, cfg, World(s1, Some(Drive(v, t1, s, s1))))
  {
    DriveEffect(v, t1, s, s1);
    assert Beyond(s.forwarded, s1.forwarded) == [];
  }

  lemma NextInv(v: Variant, cfg: Config, w: World, e: Event)
    requires Inv(v, cfg, w)
    ensures Inv(v, cfg, Next(v, cfg, w, e))
  {
    match e
    case ClientSends(chunk) => ClientSendsInv(v, cfg, w, chunk);
    case ClientLeaves => ClientLeavesInv(v, cfg, w);
    case TunnelMoves(step, a) => TunnelMovesInv(v, cfg, w, step, a);
  }

  lemma {:induction false} RunInv(v: Variant, cfg: Config, w: World, es: seq<Event>)
    requires Inv(v, cfg, w)
    ensures Inv(v, cfg, Run(v, cfg, w, es))
    decreases |es|
  {
    if es == [] {
    } else {
      NextInv(v, cfg, w, es[0]);
      RunInv(v, cfg, Next(v, cfg, w, es[0]), es[1..]);
    }
  }

  // ---------------------------------------------------------------- the result

  /** Over every run of a client, its session, the tunnel and a target, in either reading: the octets of the client
      are accounted for; the server dials at most one target, the one the session asked for; the target is given a
      prefix of the blocks the session posted; and what the client is relayed, behind what was lost with the reply,
      is a prefix of the blocks the target posted. */
  lemma EndToEndPosted(v: Variant, cfg: Config, es: seq<Event>)
    ensures var w := Run(v, cfg, NewWorld(), es);
            w.session.received == [VERSION] + Flat(w.session.consumed) + w.session.buf + w.session.forwarded
            && (w.tunnel.Some? ==>
                  var t := w.tunnel.value;
                  (t.s.dials == [] || t.s.dials == w.session.dials)
                  && w.session.forwarded == t.localSent
                  && t.s.toTarget <= t.upPosted
                  && t.c.lost + Relayed(w.session.sent) <= t.downPosted
                  && (v.Intended? ==> t.c.lost == [])
                  && (t.c.mode.Forword? && t.c.data == [] && Flat(t.down) == [] ==>
                        t.c.lost + Relayed(w.session.sent) == t.downPosted))
  {
    F.FreshInv(v, cfg);
    RunInv(v, cfg, NewWorld(), es);
    var w := Run(v, cfg, NewWorld(), es);
    if w.tunnel.Some? && T.Inv(v, w.tunnel.value) {
      GivenIsPrefix(v, w.tunnel.value);
    }
  }

  lemma GivenIsPrefix(v: Variant, t: T.Tunnel)
    requires T.Inv(v, t)
    ensures t.c.lost + t.c.given <= t.downPosted
    ensures t.c.mode.Forword? && t.c.data == [] && Flat(t.down) == [] ==> t.c.lost + t.c.given == t.downPosted
    ensures v.Intended? ==> t.c.lost == []
  {
    if t.c.mode.Forword? {
      assert t.c.lost + t.c.given + t.c.data + Flat(t.down) == t.c.lost + t.c.given + (t.c.data + Flat(t.down));
    }
  }

  /** Blocks that the written code transmits faithfully: at most one message each. */
  predicate Fits(v: Variant, e: Event) {
    v.Written? ==>
      match e
      case ClientSends(chunk) => |chunk| <= DataChannel.MAX_MESSAGE
      case ClientLeaves => true
      case TunnelMoves(step, _) => T.Faithful(v, step)
  }

  predicate AllFit(v: Variant, es: seq<Event>) {
    forall i :: 0 <= i < |es| ==> Fits(v, es[i])
  }

  predicate PostedAsSent(w: World) {
    w.tunnel.Some? ==> T.PostedAsSent(w.tunnel.value)
  }

  lemma DrivePosted(v: Variant, t: T.Tunnel, before: Session, after: Session)
    requires T.PostedAsSent(t)
    requires v.Written? ==> |Beyond(before.forwarded, after.forwarded)| <= DataChannel.MAX_MESSAGE
    ensures T.PostedAsSent(Drive(v, t, before, after))
  {
    var d := Beyond(before.forwarded, after.forwarded);
    var t1 := if d != [] then T.Take(v, t, T.LocalWrites(d)) else t;
    if d != [] {
      T.PostedTake(v, t, T.LocalWrites(d));
    }
    T.PostedTake(v, t1, T.LocalCloses);
  }

  /** As written the session forwards nothing but what it has just read. */
  lemma WrittenForwards(cfg: Config, s: Session, chunk: seq<byte>)
    requires F.Inv(Written, cfg, s)
    ensures var d := Beyond(s.forwarded, Step(Written, cfg, s, Data(chunk)).forwarded);
            d == [] || d == chunk
  {
    if Live(s) && !s.status.Forward? {
      DataKept(Written, cfg, s, chunk);
    }
  }

  lemma WrittenHears(cfg: Config, s: Session, before: Client, after: Client, a: HostAddress)
    requires F.Inv(Written, cfg, s)
    ensures Hear(Written, cfg, s, before, after, a).forwarded == s.forwarded
  {
    if |after.signals| > |before.signals| && Live(s) {
      match after.signals[|after.signals| - 1] {
        case SigConnected =>
          if s.peer.Dialling? {
            ConnectedEffect(Written, cfg, s, a, after.bindPort);
          }
        case SigError(code) => FailedForwards(cfg, s, code);
      }
    }
  }

  lemma FailedForwards(cfg: Config, s: Session, err: int)
    ensures Step(Written, cfg, s, Failed(err, NullAddress, 0)).forwarded == s.forwarded
  {
  }

  lemma NextPosted(v: Variant, cfg: Config, w: World, e: Event)
    requires Inv(v, cfg, w) && PostedAsSent(w) && Fits(v, e)
    ensures PostedAsSent(Next(v, cfg, w, e))
  {
    match e
    case ClientSends(chunk) =>
      if w.tunnel.Some? {
        if v.Written? {
          WrittenForwards(cfg, w.session, chunk);
        }
        DrivePosted(v, w.tunnel.value, w.session, Step(v, cfg, w.session, Data(chunk)));
      }
    case ClientLeaves =>
      if w.tunnel.Some? {
        HangupEffect(v, cfg, w.session);
        DrivePosted(v, w.tunnel.value, w.session, Step(v, cfg, w.session, Hangup));
      }
    case TunnelMoves(step, a) =>
      if w.tunnel.Some? && !step.LocalWrites? && !step.LocalCloses? {
        var t1 := T.Take(v, w.tunnel.value, step);
        T.PostedTake(v, w.tunnel.value, step);
        if v.Written? {
          WrittenHears(cfg, w.session, w.tunnel.value.c, t1.c, a);
        }
        DrivePosted(v, t1, w.session, Hear(v, cfg, w.session, w.tunnel.value.c, t1.c, a));
      }
  }

  lemma {:induction false} RunPosted(v: Variant, cfg: Config, w: World, es: seq<Event>)
    requires Inv(v, cfg, w) && PostedAsSent(w) && AllFit(v, es)
    ensures PostedAsSent(Run(v, cfg, w, es))
    decreases |es|
  {
    if es == [] {
    } else {
      NextInv(v, cfg, w, es[0]);
      NextPosted(v, cfg, w, es[0]);
      RunPosted(v, cfg, Next(v, cfg, w, es[0]), es[1..]);
    }
  }

  /** Over every run, in either reading, as written with blocks of at most one message: what the target is given is a
      prefix of what the session forwarded, which is the client's stream behind the frames the session took; what the
      client is relayed, behind what was lost with the reply, is a prefix of what the target sent; and once the
      channel is drained the client has got everything the target sent if and only if nothing was lost. */
  lemma EndToEndTransparency(v: Variant, cfg: Config, es: seq<Event>)
    requires AllFit(v, es)
    ensures var w := Run(v, cfg, NewWorld(), es);
            w.session.received == [VERSION] + Flat(w.session.consumed) + w.session.buf + w.session.forwarded
            && (w.tunnel.Some? ==>
                  var t := w.tunnel.value;
                  (t.s.dials == [] || t.s.dials == w.session.dials)
                  && t.s.toTarget <= w.session.forwarded
                  && t.c.lost + Relayed(w.session.sent) <= t.targetSent
                  && (v.Intended? ==> Relayed(w.session.sent) <= t.targetSent)
                  && (t.c.mode.Forword? && t.c.data == [] && Flat(t.down) == [] ==>
                        (Relayed(w.session.sent) == t.targetSent <==> t.c.lost == [])))
  {
    F.FreshInv(v, cfg);
    EndToEndPosted(v, cfg, es);
    RunPosted(v, cfg, NewWorld(), es);
    var w := Run(v, cfg, NewWorld(), es);
    if w.tunnel.Some? {
      BehindLost(w.tunnel.value.c.lost, Relayed(w.session.sent));
    }
  }

  lemma BehindLost(lost: seq<byte>, relayed: seq<byte>)
    ensures lost == [] ==> lost + relayed == relayed
    ensures lost + relayed == relayed ==> lost == []
  {
    assert |lost + relayed| == |lost| + |relayed|;
  }

  /** While the session forwards, the target it reached is the one named by the request frame it took last; as
      intended, everything behind that frame has been forwarded. */
  lemma EndToEndTarget(v: Variant, cfg: Config, es: seq<Event>)
    ensures var w := Run(v, cfg, NewWorld(), es);
            Live(w.session) && w.session.status.Forward? ==>
              w.tunnel.Some? && w.tunnel.value.s.dials == w.session.dials && |w.session.dials| == 1
              && |w.session.consumed| > 0
              && F.RequestFrame(w.session.consumed[|w.session.consumed| - 1], w.session.dials[0])
              && (v.Intended? ==> w.session.received == [VERSION] + Flat(w.session.consumed) + w.session.forwarded)
  {
    F.FreshInv(v, cfg);
    RunInv(v, cfg, NewWorld(), es);
    var w := Run(v, cfg, NewWorld(), es);
    if Live(w.session) && w.session.status.Forward? {
      ForwardTarget(v, cfg, w.session);
      ForwardTunnel(v, cfg, w);
    }
  }

  lemma ForwardTarget(v: Variant, cfg: Config, s: Session)
    requires F.Inv(v, cfg, s) && Live(s) && s.status.Forward?
    ensures s.peer.Linked? && |s.dials| == 1 && |s.consumed| > 0
            && F.RequestFrame(s.consumed[|s.consumed| - 1], s.dials[0])
            && (v.Intended? ==> s.received == [VERSION] + Flat(s.consumed) + s.forwarded)
  {
    if v.Intended? {
      Runs.ForwardState(cfg, s);
    }
  }

  lemma ForwardTunnel(v: Variant, cfg: Config, w: World)
    requires Inv(v, cfg, w) && Live(w.session) && w.session.peer.Linked? && |w.session.dials| == 1
    ensures w.tunnel.Some? && w.tunnel.value.s.dials == w.session.dials
  {
    var t := w.tunnel.value;
    assert t.c.mode.Forword? && T.Inv(v, t);
  }
}
