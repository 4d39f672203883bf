/** A client's view: what it reads from the octets on its socket. */
module Socks5Client {
  import opened Bytes
  import opened Readings
  import opened Socks5Frames
  import opened Socks5Session
  import E = EndToEnd
  import Runs = Socks5Runs
  import Safety = Socks5Safety

  /** What a client has heard: the method chosen for it, a login status, a reply, and what stands behind the reply. */
  datatype Heard = Heard(choice: byte, login: Option<byte>, reply: Option<Reply>, data: seq<byte>)

  /** A client reads a method reply (section 3 of RFC 1928), a login status if method 2 was chosen (section 2 of
      RFC 1929), a reply (section 6 of RFC 1928), and takes the rest for data. */
  function ReadWire(w: seq<byte>): Option<Heard> {
    if |w| < 2 || w[0] != 5 then None
    else if w[1] == 2 && |w| >= 4 && w[2] == 1 then Some(ReadBehind(w[1], Some(w[3]), w[4..]))
    else Some(ReadBehind(w[1], None, w[2..]))
  }

  function ReadBehind(choice: byte, login: Option<byte>, tail: seq<byte>): Heard {
    match DecodeReply(tail)
    case None => Heard(choice, login, None, [])
    case Some(r) => Heard(choice, login, Some(r), if r.len <= |tail| then tail[r.len..] else [])
  }

  /** What the outputs of a session tell, one after another. */
  function Told(sent: seq<Output>): Heard {
    if sent == [] then Heard(0, None, None, []) else With(Told(sent[..|sent| - 1]), sent[|sent| - 1])
  }

  function With(h: Heard, o: Output): Heard {
    match o
    case MethodReply(choice) => Heard(choice, None, None, [])
    case LoginReply(status) => h.(login := Some(status))
    case RequestReply(version, code, a, p) =>
      h.(reply := Some(Reply(version, code, Named(a), p, if Named(a).V6? then 22 else 10)))
    case PeerBytes(d) => h.(data := h.data + d)
  }

  // ---------------------------------------------------------------- reading what was told

  function ReplyBytes(r: Reply): seq<byte> {
    [r.version, r.code, 0, AddressType(r.address)] + AddressBytes(r.address) + PortBytes(r.port)
  }

  function Head(h: Heard): seq<byte> {
    [5, h.choice] + if h.login.Some? then [1, h.login.value] else []
  }

  function Tail(h: Heard): seq<byte> {
    (if h.reply.Some? then ReplyBytes(h.reply.value) else []) + h.data
  }

  /** A login status is there only for method 2, and needed there before a reply; data only behind a reply. */
  predicate WellFormed(h: Heard) {
    (h.login.Some? ==> h.choice == 2) && (h.choice == 2 && h.reply.Some? ==> h.login.Some?)
    && (h.reply.None? ==> h.data == [])
    && (h.reply.Some? ==>
          var r := h.reply.value;
          !r.address.NullAddress? && r.len == if r.address.V6? then 22 else 10)
  }

  lemma TailRead(h: Heard)
    requires WellFormed(h)
    ensures ReadBehind(h.choice, h.login, Tail(h)) == h
  {
    if h.reply.Some? {
      var r := h.reply.value;
      var tail := ReplyBytes(r) + h.data;
      PortRoundTrip(r.port);
      assert tail[4..4 + |AddressBytes(r.address)|] == AddressBytes(r.address);
      assert tail[r.len..] == h.data;
    } else {
      assert [] + h.data == [];
    }
  }

  lemma HeardRead(h: Heard)
    requires WellFormed(h)
    ensures ReadWire(Head(h) + Tail(h)) == Some(h)
  {
    var w := Head(h) + Tail(h);
    TailRead(h);
    if h.login.Some? {
      assert w[4..] == Tail(h);
    } else {
      assert w[2..] == Tail(h);
      if h.choice == 2 {
        assert Tail(h) == [];
      }
    }
  }

  /** How far the client has heard, phase by phase. */
  predicate InPhase(p: Safety.Phase, h: Heard) {
    WellFormed(h)
    && match p
       case Start => true
       case Chosen(c) => h == Heard(c, None, None, [])
       case LoggedIn => h == Heard(2, Some(0), None, [])
       case Relaying => h.reply.Some?
       case Ended => true
       case Bad => true
  }

  lemma NamedForm(a: HostAddress)
    ensures !Named(a).NullAddress?
  {
  }

  /** The octets written are those of what was told. */
  lemma {:induction false} WireTells(sent: seq<Output>)
    requires !Safety.PhaseOf(sent).Bad? && sent != []
    ensures InPhase(Safety.PhaseOf(sent), Told(sent)) && !Safety.PhaseOf(sent).Start?
    ensures Wire(sent) == Head(Told(sent)) + Tail(Told(sent))
  {
    var init, last := sent[..|sent| - 1], sent[|sent| - 1];
    var h := Told(init);
    if init == [] {
      assert Wire(init) == [];
      assert [] + OutputBytes(last) == OutputBytes(last);
      assert last.MethodReply?;
      assert [5, last.choice] + [] + ([] + []) == [5, last.choice];
    } else {
      WireTells(init);
      OutputTells(Safety.PhaseOf(init), h, last);
    }
  }

  lemma OutputTells(p: Safety.Phase, h: Heard, o: Output)
    requires InPhase(p, h) && !p.Start? && !Safety.Next(p, o).Bad?
    ensures InPhase(Safety.Next(p, o), With(h, o))
    ensures Head(h) + Tail(h) + OutputBytes(o) == Head(With(h, o)) + Tail(With(h, o))
  {
    match o {
      case LoginReply(status) =>
        assert [5, h.choice] + [] + ([] + []) + [1, status] == [5, h.choice] + [1, status] + ([] + []);
      case RequestReply(version, code, a, port) =>
        NamedForm(a);
        var b := ReplyBytes(With(h, o).reply.value);
        assert b == OutputBytes(o);
        assert Head(h) + ([] + []) + b == Head(h) + (b + []);
      case PeerBytes(d) =>
        var b := ReplyBytes(h.reply.value);
        assert Head(h) + (b + h.data) + d == Head(h) + (b + (h.data + d));
    }
  }

  /** In every run, once anything was written, a client reads from the octets exactly what the outputs tell. */
  lemma ClientReadsReplies(v: Variant, cfg: Config, es: seq<Event>)
    ensures var s := Run(v, cfg, Fresh(), es);
            s.sent != [] ==> ReadWire(Wire(s.sent)) == Some(Told(s.sent))
  {
    Runs.OutputGrammar(v, cfg, es);
    var s := Run(v, cfg, Fresh(), es);
    if s.sent != [] {
      WireTells(s.sent);
      HeardRead(Told(s.sent));
    }
  }

  // ---------------------------------------------------------------- connections, failures and losses

  /** The connection is answered by a reply of version 5 and code 0 with the connector's local address and port, as
      octets when that is an IPv4 address, and links the session. */
  lemma ConnectionAnswered(v: Variant, cfg: Config, s: Session, a: HostAddress, p: port, q: Quad)
    requires Safety.Inv(v, cfg, s) && Live(s) && s.peer.Dialling?
    ensures var t := Step(v, cfg, s, Connected(a, p));
            Live(t) && t.peer.Linked? && t.sent == s.sent + [RequestReply(5, 0, a, p)]
            && (a == V4(q) ==> Wire(t.sent) == Wire(s.sent) + [5, 0, 0, 1, q[0], q[1], q[2], q[3], p / 256, p % 256])
  {
    var u := ProcessReply(s, SUCCEEDED, a, p).(status := Forward, peer := Linked);
    Safety.RemoveForward(v, cfg, u, s.targetLen);
    WirePush(s.sent, RequestReply(5, 0, a, p));
    ReplyOctets(5, 0, q, UNSPECIFIED, p);
  }

  /** The codes of section 6 of RFC 1928 for what a connector reports: 5 for a refused connection (1), 4 for an unknown
      host (2), 2 for a forbidden connection (4), and no reply for anything else. */
  predicate AnsweredBy(err: int, code: int) {
    (err == 1 && code == 5) || (err == 2 && code == 4) || (err == 4 && code == 2)
  }

  /** A failed dial is answered by that code and the local address and port, or not at all, and closes the session. */
  lemma FailureAnswered(v: Variant, cfg: Config, s: Session, err: int, code: byte, a: HostAddress, p: port)
    requires Safety.Inv(v, cfg, s) && Live(s) && s.peer.Dialling?
    ensures var t := Step(v, cfg, s, Failed(err, a, p));
            !t.open && t.halt.Running?
            && (AnsweredBy(err, code) ==> t.sent == s.sent + [RequestReply(5, code, a, p)])
            && (err != 1 && err != 2 && err != 4 ==> t.sent == s.sent)
  {
  }

  /** Once the session forwards, an error, a disconnect or the end of the client closes it without another octet. */
  lemma LossCloses(v: Variant, cfg: Config, s: Session, e: Event)
    requires Safety.Inv(v, cfg, s) && Live(s) && s.status.Forward? && (e.Failed? || e.Disconnected? || e.Hangup?)
    ensures var t := Step(v, cfg, s, e);
            !t.open && t.peer.NoPeer? && t.halt.Running? && t.sent == s.sent && t.forwarded == s.forwarded
  {
  }

  // ---------------------------------------------------------------- where a success comes from

  predicate Success(o: Output) {
    o.RequestReply? && o.code == 0
  }

  lemma {:induction false} SuccessIsRelaying(sent: seq<Output>)
    requires !Safety.PhaseOf(sent).Bad? && exists i :: 0 <= i < |sent| && Success(sent[i])
    ensures Safety.PhaseOf(sent).Relaying?
  {
    var init, last := sent[..|sent| - 1], sent[|sent| - 1];
    var i :| 0 <= i < |sent| && Success(sent[i]);
    if i < |init| {
      assert Success(init[i]);
      SuccessIsRelaying(init);
    }
  }

  /** Every success reply tells the address and port of a connection that was reported. */
  predicate FromConnector(sent: seq<Output>, es: seq<Event>) {
    forall i :: 0 <= i < |sent| && Success(sent[i]) ==> Connected(sent[i].address, sent[i].port) in es
  }

  /** One more output, which is no success or tells the connection just reported. */
  predicate Grows(sent: seq<Output>, after: seq<Output>, e: Event) {
    after == sent
    || (after != [] && after[..|after| - 1] == sent
        && var o := after[|after| - 1];
           Success(o) ==> e == Connected(o.address, o.port))
  }

  lemma GrowsFrom(sent: seq<Output>, after: seq<Output>, e: Event, es: seq<Event>)
    requires FromConnector(sent, es) && Grows(sent, after, e)
    ensures FromConnector(after, es + [e])
  {
    forall i | 0 <= i < |after| && Success(after[i])
      ensures Connected(after[i].address, after[i].port) in es + [e]
    {
      if i < |sent| {
        assert after[i] == sent[i];
      }
    }
  }

  lemma StepFromConnector(v: Variant, cfg: Config, s: Session, e: Event, es: seq<Event>)
    requires Safety.Inv(v, cfg, s) && FromConnector(s.sent, es)
    ensures FromConnector(Step(v, cfg, s, e).sent, es + [e])
  {
    var t := Step(v, cfg, s, e);
    if Live(s) && e.Data? {
      DataTellsNoSuccess(v, cfg, s, e.chunk);
      if t.sent == s.sent {
        GrowsFrom(s.sent, t.sent, e, es);
      }
    } else {
      PeerGrows(v, cfg, s, e);
      GrowsFrom(s.sent, t.sent, e, es);
    }
  }

  lemma PeerGrows(v: Variant, cfg: Config, s: Session, e: Event)
    requires Safety.Inv(v, cfg, s) && !(Live(s) && e.Data?)
    ensures Grows(s.sent, Step(v, cfg, s, e).sent, e)
  {
    if Live(s) && Enabled(s, e) {
      match e {
        case Connected(a, p) => ConnectionAnswered(v, cfg, s, a, p, [0, 0, 0, 0]);
        case Failed(err, a, p) => FailedGrows(s, err, a, p);
        case _ =>
      }
    }
  }

  lemma FailedGrows(s: Session, err: int, a: HostAddress, p: port)
    ensures Grows(s.sent, PeerError(s, err, a, p).sent, Failed(err, a, p))
  {
  }

  lemma DataTellsNoSuccess(v: Variant, cfg: Config, s: Session, chunk: seq<byte>)
    requires Safety.Inv(v, cfg, s) && Live(s)
    ensures var t := Step(v, cfg, s, Data(chunk));
            t.sent == s.sent || forall i :: 0 <= i < |t.sent| ==> !Success(t.sent[i])
  {
    var t := Step(v, cfg, s, Data(chunk));
    if !s.status.Forward? {
      E.DataKept(v, cfg, s, chunk);
      Safety.StepInv(v, cfg, s, Data(chunk));
      if exists i :: 0 <= i < |t.sent| && Success(t.sent[i]) {
        SuccessIsRelaying(t.sent);
      }
    }
  }

  lemma {:induction false} RunFromConnector(v: Variant, cfg: Config, s: Session, before: seq<Event>, es: seq<Event>)
    requires Safety.Inv(v, cfg, s) && FromConnector(s.sent, before)
    ensures FromConnector(Run(v, cfg, s, es).sent, before + es)
    decreases |es|
  {
    if es == [] {
      assert before + es == before;
    } else {
      StepFromConnector(v, cfg, s, es[0], before);
      Safety.StepInv(v, cfg, s, es[0]);
      RunFromConnector(v, cfg, Step(v, cfg, s, es[0]), before + [es[0]], es[1..]);
      assert before + [es[0]] + es[1..] == before + es;
    }
  }

  /** In every run a success reply names the local address and port that the connector reported when it connected. */
  lemma SuccessNamesConnector(v: Variant, cfg: Config, es: seq<Event>)
    ensures FromConnector(Run(v, cfg, Fresh(), es).sent, es)
  {
    Safety.FreshInv(v, cfg);
    RunFromConnector(v, cfg, Fresh(), [], es);
    assert [] + es == es;
  }
}
