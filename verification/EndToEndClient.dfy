/** A whole conversation: a client's opening in any split, the dial through the tunnel, and octets both ways. */
module EndToEndClient {
  import opened Bytes
  import opened PeerConnector
  import opened Readings
  import opened Socks5Frames
  import opened Socks5Session
  import opened EndToEnd
  import A = Socks5Answers
  import C = Socks5Chunking
  import DataChannel
  import Decimal
  import Client = Socks5Client
  import F = Socks5Safety
  import G = EndToEndProgress
  import O = Socks5OneShot
  import P = TunnelProgress
  import T = Tunnel
  import TunnelCodec

  /** Reads of the client's socket as events of the whole. */
  function Sends(chunks: seq<seq<byte>>): seq<EndToEnd.Event> {
    seq(|chunks|, i requires 0 <= i < |chunks| => ClientSends(chunks[i]))
  }

  // ---------------------------------------------------------------- the opening

  /** The session has not been linked, and a tunnel it has dialled through has not moved. */
  predicate Opening(v: Variant, cfg: Config, w: World) {
    EndToEnd.Inv(v, cfg, w) && !w.session.status.Forward?
    && (Live(w.session) && w.tunnel.Some? ==>
          w.session.peer.Dialling? && w.tunnel == Some(T.Start(w.session.target.host, w.session.target.port)))
  }

  lemma SendKeeps(v: Variant, cfg: Config, w: World, chunk: seq<byte>)
    requires Opening(v, cfg, w)
    ensures var u := Next(v, cfg, w, ClientSends(chunk));
            Opening(v, cfg, u) && u.session == Read(v, cfg, w.session, chunk)
  {
    NextInv(v, cfg, w, ClientSends(chunk));
    var s := w.session;
    if Live(s) {
      DataKept(v, cfg, s, chunk);
      if w.tunnel.None? {
        DataBeforeDial(v, cfg, s, chunk);
      } else {
        DataWhileDialling(v, cfg, s, chunk);
      }
    }
  }

  lemma {:induction false} SendsRun(v: Variant, cfg: Config, w: World, chunks: seq<seq<byte>>)
    requires Opening(v, cfg, w)
    ensures var u := EndToEnd.Run(v, cfg, w, Sends(chunks));
            Opening(v, cfg, u) && u.session == C.ReadAll(v, cfg, w.session, chunks)
    decreases |chunks|
  {
    if chunks == [] {
      assert Sends(chunks) == [];
    } else {
      SendKeeps(v, cfg, w, chunks[0]);
      assert Sends(chunks) == [ClientSends(chunks[0])] + Sends(chunks[1..]);
      G.RunFirst(v, cfg, w, ClientSends(chunks[0]), Sends(chunks[1..]));
      SendsRun(v, cfg, Next(v, cfg, w, ClientSends(chunks[0])), chunks[1..]);
    }
  }

  /** The recorded length is that of the request at the front of the buffer. */
  lemma PendingRequest(v: Variant, cfg: Config, s: Session, reserved: byte, a: Address, p: port, rest: seq<byte>)
    requires F.Inv(v, cfg, s) && Live(s) && s.peer.Dialling? && Encodable(a)
    requires s.buf == EncodeRequest(CONNECT, reserved, a, p) + rest
    ensures s.target == Endpoint(HostText(a), p) && 0 !in HostText(a)
    ensures s.targetLen <= |s.buf| && s.buf[s.targetLen..] == rest
  {
    RequestRoundTrip(CONNECT, reserved, a, p, rest);
    assert F.Pending(s);
    var frame := s.buf[..s.targetLen];
    RequestExtend(frame, s.buf[s.targetLen..]);
    assert frame + s.buf[s.targetLen..] == s.buf;
    HostTextFits(s.buf);
  }

  /** However a served client's opening is split, it leads to one dial, for its target. */
  lemma OpeningDials(v: Variant, cfg: Config, ms: seq<byte>, reserved: byte, a: Address, p: port, rest: seq<byte>,
                     chunks: seq<seq<byte>>)
    requires O.Served(v, cfg, ms, rest) && Encodable(a) && HostText(a) != []
    requires |HostText(a)| <= TunnelCodec.MaxHost(v)
    requires O.ReadsOf(chunks, O.ClientOpening(cfg, ms, reserved, a, p) + rest)
    ensures var w := EndToEnd.Run(v, cfg, NewWorld(), Sends(chunks));
            G.JustDialled(v, cfg, w) && w.session.dials == [Endpoint(HostText(a), p)]
            && w.session.targetLen <= |w.session.buf| && w.session.buf[w.session.targetLen..] == rest
  {
    F.FreshInv(v, cfg);
    SendsRun(v, cfg, NewWorld(), chunks);
    O.ClientDials(v, cfg, ms, reserved, a, p, rest, chunks);
    var w := EndToEnd.Run(v, cfg, NewWorld(), Sends(chunks));
    PendingRequest(v, cfg, w.session, reserved, a, p, rest);
  }

  // ---------------------------------------------------------------- the conversation

  /** The reads of the opening, and the steps that complete the dial. */
  function Connecting(chunks: seq<seq<byte>>, bind: seq<byte>, bindPort: port, local: HostAddress): seq<EndToEnd.Event> {
    Sends(chunks) + G.Moves(G.Replied(T.TargetConnects(bind, bindPort)) + [T.ClientReads], local)
  }

  /** The session is linked to a target that has been given nothing and has sent nothing but what is counted. */
  predicate Talking(v: Variant, cfg: Config, w: World, to: Endpoint, forwarded: seq<byte>, sent: seq<byte>) {
    G.LinkedUp(v, cfg, w) && w.session.dials == [to] && w.session.forwarded == forwarded
    && w.tunnel.value.s.target.Up? && w.tunnel.value.c.lost == [] && w.tunnel.value.targetSent == sent
  }

  /** In either reading, for every client the code serves, every split of its opening and every bind address, the run
      from the beginning in which the client's session is linked to exactly the target it asked for. */
  lemma ClientReachesTarget(v: Variant, cfg: Config, ms: seq<byte>, reserved: byte, a: Address, p: port, rest: seq<byte>,
                            chunks: seq<seq<byte>>, bind: seq<byte>, bindPort: port, local: HostAddress)
    requires O.Served(v, cfg, ms, rest) && Encodable(a) && HostText(a) != []
    requires |HostText(a)| <= TunnelCodec.MaxHost(v) && T.BindText(bind)
    requires O.ReadsOf(chunks, O.ClientOpening(cfg, ms, reserved, a, p) + rest)
    ensures var w := EndToEnd.Run(v, cfg, NewWorld(), Connecting(chunks, bind, bindPort, local));
            Talking(v, cfg, w, Endpoint(HostText(a), p), rest, [])
  {
    OpeningDials(v, cfg, ms, reserved, a, p, rest, chunks);
    var w := EndToEnd.Run(v, cfg, NewWorld(), Sends(chunks));
    G.DialCompletes(v, cfg, w, bind, bindPort, local);
    G.RunAppend(v, cfg, NewWorld(), Sends(chunks),
                G.Moves(G.Replied(T.TargetConnects(bind, bindPort)) + [T.ClientReads], local));
  }

  /** In particular for an IPv4 address, octet by octet: from the methods, a login if method 2 is picked, and the ten
      octets of the request, however they are split, the one host that the server dials reads back to octets 4 to 7 of
      the request and the port is that of octets 8 and 9; and the client has then got the method, the login status and
      the reply with the address the session was told and the target's port. */
  lemma ClientReachesIPv4(v: Variant, cfg: Config, ms: seq<byte>, reserved: byte, q: Quad, p: port, rest: seq<byte>,
                          chunks: seq<seq<byte>>, bind: seq<byte>, bindPort: port, l: Quad)
    requires O.Served(v, cfg, ms, rest) && T.BindText(bind)
    requires O.ReadsOf(chunks, A.OpeningOctets(cfg, ms) + A.ConnectIPv4(reserved, q, p) + rest)
    ensures var w := EndToEnd.Run(v, cfg, NewWorld(), Connecting(chunks, bind, bindPort, V4(l)));
            Live(w.session) && w.session.peer.Linked? && w.tunnel.Some?
            && var dials := w.tunnel.value.s.dials;
               |dials| == 1 && Decimal.ReadDotted(dials[0].host) == [q[0], q[1], q[2], q[3]] && dials[0].port == p
               && Wire(w.session.sent) == A.OpeningAnswer(cfg, ms)
                                          + [5, 0, 0, 1, l[0], l[1], l[2], l[3], bindPort / 256, bindPort % 256]
  {
    A.ConnectOctets(reserved, q, [], p);
    A.OpeningIsClients(cfg, ms, reserved, IPv4(q), p, rest);
    Decimal.DottedLength(q);
    Decimal.DottedReadsBack(q);
    ClientReachesTarget(v, cfg, ms, reserved, IPv4(q), p, rest, chunks, bind, bindPort, V4(l));
    var w := EndToEnd.Run(v, cfg, NewWorld(), Connecting(chunks, bind, bindPort, V4(l)));
    ForwardTunnel(v, cfg, w);
    OpeningOnWire(v, cfg, ms, reserved, IPv4(q), p, rest, chunks, bind, bindPort, l);
  }

  lemma OpeningOnWire(v: Variant, cfg: Config, ms: seq<byte>, reserved: byte, a: Address, p: port, rest: seq<byte>,
                      chunks: seq<seq<byte>>, bind: seq<byte>, bindPort: port, l: Quad)
    requires O.Served(v, cfg, ms, rest) && Encodable(a) && HostText(a) != []
    requires |HostText(a)| <= TunnelCodec.MaxHost(v) && T.BindText(bind)
    requires O.ReadsOf(chunks, O.ClientOpening(cfg, ms, reserved, a, p) + rest)
    ensures var w := EndToEnd.Run(v, cfg, NewWorld(), Connecting(chunks, bind, bindPort, V4(l)));
            Wire(w.session.sent) == A.OpeningAnswer(cfg, ms)
                                    + [5, 0, 0, 1, l[0], l[1], l[2], l[3], bindPort / 256, bindPort % 256]
  {
    OpeningDials(v, cfg, ms, reserved, a, p, rest, chunks);
    F.FreshInv(v, cfg);
    SendsRun(v, cfg, NewWorld(), chunks);
    O.ClientDials(v, cfg, ms, reserved, a, p, rest, chunks);
    var w := EndToEnd.Run(v, cfg, NewWorld(), Sends(chunks));
    G.DialCompletes(v, cfg, w, bind, bindPort, V4(l));
    G.RunAppend(v, cfg, NewWorld(), Sends(chunks),
                G.Moves(G.Replied(T.TargetConnects(bind, bindPort)) + [T.ClientReads], V4(l)));
    Client.ConnectionAnswered(v, cfg, w.session, V4(l), bindPort, l);
    A.OpeningWire(cfg, ms);
  }

  lemma ClientSpeaks(v: Variant, cfg: Config, w: World, to: Endpoint, forwarded: seq<byte>, sent: seq<byte>, up: seq<byte>)
    requires Talking(v, cfg, w, to, forwarded, sent)
    ensures Talking(v, cfg, Next(v, cfg, w, ClientSends(up)), to, forwarded + up, sent)
  {
    var w1 := Next(v, cfg, w, ClientSends(up));
    NextInv(v, cfg, w, ClientSends(up));
    DataForwarded(v, cfg, w.session, up);
    G.DriveKeeps(v, w.tunnel.value, w.session, w1.session);
  }

  lemma TargetSpeaks(v: Variant, cfg: Config, w: World, to: Endpoint, forwarded: seq<byte>, down: seq<byte>, local: HostAddress)
    requires Talking(v, cfg, w, to, forwarded, [])
    ensures Talking(v, cfg, Next(v, cfg, w, TunnelMoves(T.TargetSends(down), local)), to, forwarded, down)
  {
    G.UnheardMove(v, cfg, w, T.TargetSends(down), local);
    AnswerSent(v, w.tunnel.value, down);
  }

  lemma AnswerSent(v: Variant, t: T.Tunnel, down: seq<byte>)
    requires t.s.target.Up? && t.targetSent == []
    ensures var u := T.Take(v, t, T.TargetSends(down));
            u.s.target.Up? && u.c == t.c && u.targetSent == down
  {
    assert [] + down == down;
  }

  /** The client sends, and then the target. */
  function Exchange(up: seq<byte>, down: seq<byte>, local: HostAddress): seq<EndToEnd.Event> {
    [ClientSends(up)] + [TunnelMoves(T.TargetSends(down), local)]
  }

  lemma BothSpeak(v: Variant, cfg: Config, w: World, to: Endpoint, forwarded: seq<byte>, up: seq<byte>, down: seq<byte>,
                  local: HostAddress)
    requires Talking(v, cfg, w, to, forwarded, [])
    ensures Talking(v, cfg, EndToEnd.Run(v, cfg, w, Exchange(up, down, local)), to, forwarded + up, down)
  {
    var e, f := ClientSends(up), TunnelMoves(T.TargetSends(down), local);
    var w1 := Next(v, cfg, w, e);
    ClientSpeaks(v, cfg, w, to, forwarded, [], up);
    TargetSpeaks(v, cfg, w1, to, forwarded + up, down, local);
    G.RunFirst(v, cfg, w, e, [f]);
    G.RunFirst(v, cfg, w1, f, []);
    assert [f] + [] == [f];
  }

  predicate OneMessage(v: Variant, block: seq<byte>) {
    v.Written? ==> |block| <= DataChannel.MAX_MESSAGE
  }

  predicate AllOneMessage(v: Variant, chunks: seq<seq<byte>>) {
    forall i :: 0 <= i < |chunks| ==> OneMessage(v, chunks[i])
  }

  lemma ExchangeFits(v: Variant, chunks: seq<seq<byte>>, bind: seq<byte>, bindPort: port, local: HostAddress,
                     up: seq<byte>, down: seq<byte>)
    requires AllOneMessage(v, chunks) && OneMessage(v, up) && OneMessage(v, down)
    ensures AllFit(v, Connecting(chunks, bind, bindPort, local) + Exchange(up, down, local))
  {
    var moves := G.Moves(G.Replied(T.TargetConnects(bind, bindPort)) + [T.ClientReads], local);
    SendsFit(v, chunks);
    assert AllFit(v, moves);
    assert AllFit(v, Exchange(up, down, local));
    FitsAppend(v, Sends(chunks), moves);
    FitsAppend(v, Sends(chunks) + moves, Exchange(up, down, local));
  }

  lemma SendsFit(v: Variant, chunks: seq<seq<byte>>)
    requires AllOneMessage(v, chunks)
    ensures AllFit(v, Sends(chunks))
  {
    forall i | 0 <= i < |Sends(chunks)|
      ensures Fits(v, Sends(chunks)[i])
    {
      assert OneMessage(v, chunks[i]);
    }
  }

  lemma FitsAppend(v: Variant, es: seq<EndToEnd.Event>, more: seq<EndToEnd.Event>)
    requires AllFit(v, es) && AllFit(v, more)
    ensures AllFit(v, es + more)
  {
  }

  /** Then, whatever the client sends and the target answers, delivering and reading gives the target exactly what
      stood behind the request and was sent since, and the client exactly the answer. As written, reads and answers
      fit one message. */
  lemma Conversation(v: Variant, cfg: Config, ms: seq<byte>, reserved: byte, a: Address, p: port, rest: seq<byte>,
                     chunks: seq<seq<byte>>, bind: seq<byte>, bindPort: port, local: HostAddress,
                     up: seq<byte>, down: seq<byte>)
    requires O.Served(v, cfg, ms, rest) && Encodable(a) && HostText(a) != []
    requires |HostText(a)| <= TunnelCodec.MaxHost(v) && T.BindText(bind)
    requires O.ReadsOf(chunks, O.ClientOpening(cfg, ms, reserved, a, p) + rest)
    requires AllOneMessage(v, chunks) && OneMessage(v, up) && OneMessage(v, down)
    ensures var w := EndToEnd.Run(v, cfg, NewWorld(), Connecting(chunks, bind, bindPort, local) + Exchange(up, down, local));
            w.tunnel.Some?
            && var u := EndToEnd.Run(v, cfg, w, G.Moves(P.DrainBoth(w.tunnel.value), local));
               u.tunnel.Some? && u.tunnel.value.s.toTarget == rest + up && Relayed(u.session.sent) == down
  {
    var first, last := Connecting(chunks, bind, bindPort, local), Exchange(up, down, local);
    ClientReachesTarget(v, cfg, ms, reserved, a, p, rest, chunks, bind, bindPort, local);
    BothSpeak(v, cfg, EndToEnd.Run(v, cfg, NewWorld(), first), Endpoint(HostText(a), p), rest, up, down, local);
    G.RunAppend(v, cfg, NewWorld(), first, last);
    ExchangeFits(v, chunks, bind, bindPort, local, up, down);
    Drained(v, cfg, first + last, Endpoint(HostText(a), p), rest + up, down, local);
  }

  lemma Drained(v: Variant, cfg: Config, es: seq<EndToEnd.Event>, to: Endpoint, forwarded: seq<byte>, sent: seq<byte>,
                local: HostAddress)
    requires AllFit(v, es) && Talking(v, cfg, EndToEnd.Run(v, cfg, NewWorld(), es), to, forwarded, sent)
    ensures var w := EndToEnd.Run(v, cfg, NewWorld(), es);
            var u := EndToEnd.Run(v, cfg, w, G.Moves(P.DrainBoth(w.tunnel.value), local));
            u.tunnel.Some? && u.tunnel.value.s.toTarget == forwarded && Relayed(u.session.sent) == sent
  {
    G.EverythingArrivesEndToEnd(v, cfg, es, local);
    var w := EndToEnd.Run(v, cfg, NewWorld(), es);
    var u := EndToEnd.Run(v, cfg, w, G.Moves(P.DrainBoth(w.tunnel.value), local));
    assert [] + Relayed(u.session.sent) == Relayed(u.session.sent);
  }
}
