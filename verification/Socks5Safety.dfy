/** What holds in every state of every run of a session: byte conservation, the grammar of the replies, one dial at
    most, and the request frame that waits at the front of the buffer while the dial is pending. */
module Socks5Safety {
  import opened Bytes
  import opened PeerConnector
  import opened Readings
  import opened Socks5Frames
  import opened Socks5Session
  import opened Socks5Chunking
  import Socks5OneShot

  // ---------------------------------------------------------------- the grammar of the output

  datatype Phase = Start | Chosen(choice: byte) | LoggedIn | Relaying | Ended | Bad

  /** One method reply; one login status if method 2 was chosen; at most one request reply of version 5, after method 0
      or a login status of 0; and peer bytes only after a reply of code 0. Nothing follows a failure. */
  function Next(p: Phase, o: Output): Phase {
    match o
    case MethodReply(choice) => if p.Start? then Chosen(choice) else Bad
    case LoginReply(status) => if p != Chosen(2) then Bad else if status == 0 then LoggedIn else Ended
    case RequestReply(version, code, _, _) =>
      if version != 5 || !(p == Chosen(0) || p.LoggedIn?) then Bad
      else if code == 0 then Relaying else Ended
    case PeerBytes(d) => if p.Relaying? && d != [] then Relaying else Bad
  }

  function PhaseOf(sent: seq<Output>): Phase {
    if sent == [] then Start else Next(PhaseOf(sent[..|sent| - 1]), sent[|sent| - 1])
  }

  lemma PhasePush(sent: seq<Output>, o: Output)
    ensures PhaseOf(sent + [o]) == Next(PhaseOf(sent), o)
  {
    assert (sent + [o])[..|sent|] == sent;
  }

  lemma PhaseOpening(chosen: byte)
    ensures PhaseOf([MethodReply(chosen)]) == Phase.Chosen(chosen)
    ensures chosen == USER_PASSWORD ==> PhaseOf([MethodReply(chosen), LoginReply(0)]) == LoggedIn
    ensures PhaseOf(Socks5OneShot.OpeningReplies(chosen)) == if chosen == USER_PASSWORD then LoggedIn else Phase.Chosen(chosen)
  {
    PhasePush([], MethodReply(chosen));
    assert [] + [MethodReply(chosen)] == [MethodReply(chosen)];
    PhasePush([MethodReply(chosen)], LoginReply(0));
    assert [MethodReply(chosen)] + [LoginReply(0)] == [MethodReply(chosen), LoginReply(0)];
  }

  // ---------------------------------------------------------------- the invariant

  /** Every octet read is accounted for, in order: version, frames taken, buffer, octets forwarded. */
  predicate Conserved(s: Session) {
    s.received == [VERSION] + Flat(s.consumed) + s.buf + s.forwarded
  }

  predicate MethodFrame(v: Variant, cfg: Config, chosen: byte, frame: seq<byte>) {
    var m := ParseMethods(v, frame);
    m.Some? && m.value.len == |frame| && Select(cfg.methods, m.value.offered) == chosen
  }

  predicate LoginFrame(cfg: Config, frame: seq<byte>) {
    var l := ParseLogin(frame);
    l.Some? && l.value.Login? && l.value.len == |frame| && Credentials(cfg, l.value)
  }

  /** `frame` is one complete CONNECT request for `to`. */
  predicate RequestFrame(frame: seq<byte>, to: Endpoint) {
    var r := ParseRequest(frame);
    r.Some? && r.value.Target? && r.value.len == |frame| && r.value.command == CONNECT
    && to == Endpoint(HostText(r.value.address), r.value.port) && to.host != []
  }

  /** What has been taken off the buffer when the request stage is reached. */
  predicate Opening(v: Variant, cfg: Config, chosen: byte, consumed: seq<seq<byte>>) {
    if chosen == USER_PASSWORD then
      |consumed| == 2 && MethodFrame(v, cfg, chosen, consumed[0]) && LoginFrame(cfg, consumed[1])
    else
      chosen == NO_AUTHENTICATION && |consumed| == 1 && MethodFrame(v, cfg, chosen, consumed[0])
  }

  /** While a dial is pending, its request is still at the front of the buffer. */
  predicate Pending(s: Session) {
    s.targetLen <= |s.buf| && RequestFrame(s.buf[..s.targetLen], s.target) && s.dials == [s.target]
    && s.buf != [] && s.buf[0] == VERSION
  }

  predicate LiveInv(v: Variant, cfg: Config, s: Session) {
    match s.status
    case Negotiate => s.sent == [] && s.consumed == [] && s.forwarded == [] && s.dials == [] && s.peer.NoPeer?
    case Authentication =>
      s.sent == [MethodReply(s.chosen)] && s.forwarded == [] && s.dials == [] && s.peer.NoPeer?
      && |s.consumed| == 1
      && (MethodFrame(v, cfg, s.chosen, s.consumed[0]) || (v.Written? && s.chosen == NO_ACCEPTABLE))
    case ClientRequest =>
      s.sent == Socks5OneShot.OpeningReplies(s.chosen) && s.forwarded == [] && Opening(v, cfg, s.chosen, s.consumed)
      && (if s.peer.NoPeer? then s.dials == [] else s.peer.Dialling? && Pending(s))
    case Forward =>
      s.peer.Linked? && |s.dials| == 1 && PhaseOf(s.sent).Relaying? && (v.Intended? ==> s.buf == [])
      && |s.consumed| > 0 && Opening(v, cfg, s.chosen, s.consumed[..|s.consumed| - 1])
      && RequestFrame(s.consumed[|s.consumed| - 1], s.dials[0])
  }

  predicate Inv(v: Variant, cfg: Config, s: Session) {
    Conserved(s) && !PhaseOf(s.sent).Bad? && |s.dials| <= 1
    && (PhaseOf(s.sent).Ended? ==> !s.open)
    && (PhaseOf(s.sent).Relaying? ==> s.status.Forward?)
    && (Live(s) ==> LiveInv(v, cfg, s))
  }

  lemma FreshInv(v: Variant, cfg: Config)
    ensures Inv(v, cfg, Fresh())
  {
  }

  // ---------------------------------------------------------------- preservation, stage by stage

  /** Taking `n` octets off the buffer conserves. */
  lemma TakenConserved(s: Session, n: nat)
    requires n <= |s.buf| && Conserved(s)
    ensures Conserved(Taken(s, n))
  {
    FlatPush(s.consumed, s.buf[..n]);
    assert s.buf[..n] + s.buf[n..] == s.buf;
  }

  lemma SendInv(v: Variant, cfg: Config, s: Session, code: byte, a: HostAddress, p: port)
    requires Conserved(s) && |s.dials| <= 1 && s.open
    requires PhaseOf(s.sent) == Phase.Chosen(NO_AUTHENTICATION) || PhaseOf(s.sent).LoggedIn?
    requires s.buf != [] && s.buf[0] == VERSION && code != SUCCEEDED
    ensures Inv(v, cfg, ProcessReply(s, code, a, p))
  {
    PhasePush(s.sent, RequestReply(VERSION, code, a, p));
  }

  lemma RequestInv(v: Variant, cfg: Config, s: Session)
    requires Live(s) && s.status.ClientRequest? && s.peer.NoPeer?
    requires Conserved(s) && LiveInv(v, cfg, s)
    ensures Inv(v, cfg, ProcessClientRequest(v, s))
  {
    PhaseOpening(s.chosen);
    var p := ParseRequest(s.buf);
    if p.Some? && p.value.Target? {
      var r := p.value;
      var s1 := s.(target := Endpoint(HostText(r.address), r.port), targetLen := r.len);
      assert Conserved(s1);
      if r.command == CONNECT {
        if HostText(r.address) == [] {
          SendInv(v, cfg, s1, HOST_UNREACHABLE, NullAddress, 0);
        } else {
          RequestExtend(s.buf, []);
          assert s.buf + [] == s.buf;
          assert s.buf[..r.len] + s.buf[r.len..] == s.buf;
          RequestOfFrame(s.buf[..r.len], s.buf[r.len..]);
        }
      } else if r.command != BIND && r.command != UDP_ASSOCIATE {
        SendInv(v, cfg, s1, COMMAND_NOT_SUPPORTED, NullAddress, 0);
      }
    } else if p.Some? && p.value.OtherAddressType? {
      SendInv(v, cfg, s, ADDRESS_TYPE_NOT_SUPPORTED, NullAddress, 0);
    }
  }

  /** A read while the dial is pending: as intended the request stays at the front. */
  lemma PendingOutcome(v: Variant, s: Session, more: seq<byte>)
    requires Live(s) && s.status.ClientRequest? && s.peer.Dialling? && Pending(s)
    ensures ProcessClientRequest(v, Grown(s, more)) == if v.Written? then Trap(Grown(s, more)) else Grown(s, more)
  {
    var g := Grown(s, more);
    PendingStays(s, more);
    assert v.Written? ==> ProcessClientRequest(v, g) == Trap(g.(target := g.target, targetLen := g.targetLen));
  }

  lemma PendingInv(v: Variant, cfg: Config, g: Session)
    requires Live(g) && g.status.ClientRequest? && g.peer.Dialling?
    requires Conserved(g) && LiveInv(v, cfg, g)
    ensures Inv(v, cfg, g) && Inv(v, cfg, Trap(g))
  {
    PhaseOpening(g.chosen);
  }

  lemma PendingGrown(v: Variant, cfg: Config, s: Session, more: seq<byte>)
    requires s.status.ClientRequest? && s.peer.Dialling? && LiveInv(v, cfg, s)
    ensures LiveInv(v, cfg, Grown(s, more))
  {
    PendingStays(s, more);
  }

  lemma PendingStays(s: Session, more: seq<byte>)
    requires Pending(s)
    ensures Pending(Grown(s, more))
    ensures var r := ParseRequest(Grown(s, more).buf);
            r.Some? && r.value.Target? && r.value.len == s.targetLen && r.value.command == CONNECT
            && s.target == Endpoint(HostText(r.value.address), r.value.port)
  {
    var n := s.targetLen;
    var frame := s.buf[..n];
    var g := Grown(s, more);
    assert g.buf[..n] == frame;
    assert frame + g.buf[n..] == g.buf;
    RequestExtend(frame, g.buf[n..]);
  }

  lemma GrownConserved(s: Session, more: seq<byte>)
    requires Conserved(s) && s.forwarded == []
    ensures Conserved(Grown(s, more))
  {
    assert s.received == [VERSION] + Flat(s.consumed) + s.buf;
    assert Grown(s, more).received == [VERSION] + Flat(s.consumed) + (s.buf + more) + [];
  }

  lemma LoginInv(v: Variant, cfg: Config, s: Session)
    requires Live(s) && s.status.Authentication?
    requires Conserved(s) && LiveInv(v, cfg, s)
    ensures Inv(v, cfg, ProcessAuthenticator(v, cfg, s))
  {
    PhaseOpening(s.chosen);
    if s.chosen == NO_AUTHENTICATION {
      var t := s.(status := ClientRequest);
      StageHandler(v, cfg, t);
      RequestInv(v, cfg, t);
    } else if s.chosen == USER_PASSWORD && ParseLogin(s.buf).Some? {
      var l := ParseLogin(s.buf).value;
      if l.BadLoginVersion? {
        PhasePush(s.sent, LoginReply(1));
      } else {
        LoginExtend(s.buf, []);
        assert s.buf + [] == s.buf;
        LoginFrameInv(v, cfg, s, l);
      }
    }
  }

  lemma LoginFrameInv(v: Variant, cfg: Config, s: Session, l: Login)
    requires Live(s) && s.status.Authentication? && s.chosen == USER_PASSWORD
    requires Conserved(s) && LiveInv(v, cfg, s)
    requires ParseLogin(s.buf) == Some(l) && l.Login? && l.len <= |s.buf|
    ensures Inv(v, cfg, ProcessAuthenticator(v, cfg, s))
  {
    if Credentials(cfg, l) {
      AcceptedInv(v, cfg, s, l);
    } else {
      RefusedInv(v, cfg, s, l);
    }
  }

  lemma RefusedInv(v: Variant, cfg: Config, s: Session, l: Login)
    requires Live(s) && s.status.Authentication? && s.chosen == USER_PASSWORD
    requires Conserved(s) && LiveInv(v, cfg, s)
    requires ParseLogin(s.buf) == Some(l) && l.Login? && l.len <= |s.buf| && !Credentials(cfg, l)
    ensures Inv(v, cfg, ProcessAuthenticator(v, cfg, s))
  {
    PhaseOpening(s.chosen);
    PhasePush(s.sent, LoginReply(255));
    if v.Written? {
      RefusedLogin(cfg, s, l);
      TakenConserved(Close(Send(s, LoginReply(255))).(status := ClientRequest), l.len);
    }
  }

  lemma AcceptedInv(v: Variant, cfg: Config, s: Session, l: Login)
    requires Live(s) && s.status.Authentication? && s.chosen == USER_PASSWORD
    requires Conserved(s) && LiveInv(v, cfg, s)
    requires ParseLogin(s.buf) == Some(l) && l.Login? && l.len <= |s.buf| && Credentials(cfg, l)
    ensures Inv(v, cfg, ProcessAuthenticator(v, cfg, s))
  {
    PhaseOpening(s.chosen);
    PhasePush(s.sent, LoginReply(0));
    if v.Intended? {
      var u := Send(s, LoginReply(0)).(status := ClientRequest);
      assert ProcessAuthenticator(v, cfg, s) == Remove(v, cfg, u, l.len);
      RemoveFrame(v, cfg, u, l.len);
      TakenConserved(u, l.len);
      var t := Taken(u, l.len);
      LoginTaken(cfg, s.buf, l);
      assert u.sent == Socks5OneShot.OpeningReplies(s.chosen);
      assert t.consumed == s.consumed + [s.buf[..l.len]];
      assert LiveInv(v, cfg, t);
      if t.buf != [] {
        RequestInv(v, cfg, t);
      }
    }
  }

  lemma LoginTaken(cfg: Config, buf: seq<byte>, l: Login)
    requires ParseLogin(buf) == Some(l) && l.Login? && l.len <= |buf| && Credentials(cfg, l)
    ensures LoginFrame(cfg, buf[..l.len])
  {
    assert buf[..l.len] + buf[l.len..] == buf;
    LoginOfFrame(buf[..l.len], buf[l.len..]);
  }

  lemma NegotiateInv(v: Variant, cfg: Config, s: Session)
    requires Live(s) && s.status.Negotiate?
    requires Conserved(s) && LiveInv(v, cfg, s)
    ensures Inv(v, cfg, ProcessNegotiate(v, cfg, s))
  {
    var p := ParseMethods(v, s.buf);
    if p.Some? {
      var m := p.value;
      var chosen := Select(cfg.methods, m.offered);
      var u := Send(s, MethodReply(chosen)).(chosen := chosen, status := Authentication);
      assert ProcessNegotiate(v, cfg, s) == Remove(v, cfg, u, m.len);
      PhaseOpening(chosen);
      assert u.sent == [MethodReply(chosen)];
      if m.len < 0 {
        FlatPush(s.consumed, s.buf);
      } else {
        MethodsOfFrame(v, s.buf, m);
        RemoveFrame(v, cfg, u, m.len);
        TakenConserved(u, m.len);
        if Taken(u, m.len).buf != [] {
          LoginInv(v, cfg, Taken(u, m.len));
        }
      }
    }
  }

  lemma MethodsOfFrame(v: Variant, buf: seq<byte>, m: Methods)
    requires ParseMethods(v, buf) == Some(m) && 0 <= m.len
    ensures m.len <= |buf|
    ensures m.len > 0 ==> ParseMethods(v, buf[..m.len]) == Some(m)
    ensures m.len == 0 ==> v.Written? && m.offered == []
  {
    if m.len > 1 {
      assert buf[..m.len][1..m.len] == buf[1..m.len];
    }
  }

  lemma ReadInv(v: Variant, cfg: Config, s: Session, chunk: seq<byte>)
    requires Live(s) && Inv(v, cfg, s)
    ensures Inv(v, cfg, Read(v, cfg, s, chunk))
  {
    match s.status
    case Negotiate => ReadNegotiateInv(v, cfg, s, chunk);
    case Authentication => ReadLoginInv(v, cfg, s, chunk);
    case ClientRequest => ReadRequestInv(v, cfg, s, chunk);
    case Forward => RelayInv(v, cfg, s, chunk);
  }

  lemma ReadNegotiateInv(v: Variant, cfg: Config, s: Session, chunk: seq<byte>)
    requires Live(s) && Inv(v, cfg, s) && s.status.Negotiate?
    ensures Inv(v, cfg, Read(v, cfg, s, chunk))
  {
    GrownConserved(s, chunk);
    NegotiateInv(v, cfg, Grown(s, chunk));
  }

  lemma ReadLoginInv(v: Variant, cfg: Config, s: Session, chunk: seq<byte>)
    requires Live(s) && Inv(v, cfg, s) && s.status.Authentication?
    ensures Inv(v, cfg, Read(v, cfg, s, chunk))
  {
    GrownConserved(s, chunk);
    LoginInv(v, cfg, Grown(s, chunk));
  }

  lemma ReadRequestInv(v: Variant, cfg: Config, s: Session, chunk: seq<byte>)
    requires Live(s) && Inv(v, cfg, s) && s.status.ClientRequest?
    ensures Inv(v, cfg, Read(v, cfg, s, chunk))
  {
    GrownConserved(s, chunk);
    ReadRequestStage(v, cfg, s, chunk);
    if s.peer.NoPeer? {
      RequestInv(v, cfg, Grown(s, chunk));
    } else {
      PendingOutcome(v, s, chunk);
      PendingGrown(v, cfg, s, chunk);
      PendingInv(v, cfg, Grown(s, chunk));
    }
  }

  lemma RelayInv(v: Variant, cfg: Config, s: Session, chunk: seq<byte>)
    requires Live(s) && Inv(v, cfg, s) && s.status.Forward?
    ensures Inv(v, cfg, Read(v, cfg, s, chunk))
  {
    Relayed([VERSION] + Flat(s.consumed), s.buf, s.forwarded, chunk);
  }

  lemma Relayed(front: seq<byte>, buf: seq<byte>, forwarded: seq<byte>, chunk: seq<byte>)
    ensures front + buf + (forwarded + chunk) == front + buf + forwarded + chunk
    ensures buf == [] ==> front + [] + (forwarded + buf + chunk) == front + buf + forwarded + chunk
  {
    assert buf == [] ==> forwarded + buf + chunk == forwarded + chunk;
  }

  lemma ConnectedInv(v: Variant, cfg: Config, s: Session, a: HostAddress, p: port)
    requires Live(s) && Inv(v, cfg, s) && s.peer.Dialling?
    ensures Inv(v, cfg, PeerConnected(v, cfg, s, a, p))
  {
    PhaseOpening(s.chosen);
    PhasePush(s.sent, RequestReply(VERSION, SUCCEEDED, a, p));
    var n := s.targetLen;
    var u := ProcessReply(s, SUCCEEDED, a, p).(status := Forward, peer := Linked);
    RequestTaken(u, n);
    RemoveForward(v, cfg, u, n);
  }

  /** Taking the request off the buffer. */
  lemma RequestTaken(u: Session, n: nat)
    requires n <= |u.buf| && Conserved(u) && u.forwarded == []
    ensures var t := Taken(u, n);
            t.consumed != [] && t.consumed[..|t.consumed| - 1] == u.consumed
            && t.consumed[|t.consumed| - 1] == u.buf[..n]
            && Conserved(t) && Conserved(t.(forwarded := t.buf, buf := []))
  {
    TakenConserved(u, n);
    var t := Taken(u, n);
    assert t.received == [VERSION] + Flat(t.consumed) + [] + (t.forwarded + t.buf);
    assert t.forwarded + t.buf == t.buf;
  }

  /** What happens to octets that wait behind the request when the dial succeeds. */
  lemma RemoveForward(v: Variant, cfg: Config, u: Session, n: nat)
    requires Live(u) && u.status.Forward? && u.peer.Linked? && u.forwarded == [] && n <= |u.buf|
    ensures var t := Taken(u, n);
            Remove(v, cfg, u, n) == if v.Written? then t else t.(forwarded := t.buf, buf := [])
  {
    var t := Taken(u, n);
    assert t.forwarded + [] == t.forwarded;
    assert t.forwarded + t.buf + [] == t.buf;
    if n == |u.buf| {
      assert u.buf[..n] == u.buf;
    }
  }

  lemma FailedInv(v: Variant, cfg: Config, s: Session, err: int, a: HostAddress, p: port)
    requires Live(s) && Inv(v, cfg, s) && !s.peer.NoPeer?
    ensures Inv(v, cfg, PeerError(s, err, a, p))
  {
    PhaseOpening(s.chosen);
    if !s.status.Forward? && ErrorReply(err).Some? {
      SendInv(v, cfg, s, ErrorReply(err).value, a, p);
    }
  }

  lemma PeerDataInv(v: Variant, cfg: Config, s: Session, d: seq<byte>)
    requires Live(s) && Inv(v, cfg, s) && s.peer.Linked? && d != []
    ensures Inv(v, cfg, Send(s, PeerBytes(d)))
  {
    PhasePush(s.sent, PeerBytes(d));
  }

  lemma StepInv(v: Variant, cfg: Config, s: Session, e: Event)
    requires Inv(v, cfg, s)
    ensures Inv(v, cfg, Step(v, cfg, s, e))
  {
    if Live(s) && Enabled(s, e) {
      match e
      case Data(chunk) => ReadInv(v, cfg, s, chunk);
      case Connected(a, p) => ConnectedInv(v, cfg, s, a, p);
      case Failed(err, a, p) => FailedInv(v, cfg, s, err, a, p);
      case PeerData(d) => if d != [] { PeerDataInv(v, cfg, s, d); }
      case _ =>
    }
  }

  lemma {:induction false} RunInv(v: Variant, cfg: Config, s: Session, es: seq<Event>)
    requires Inv(v, cfg, s)
    ensures Inv(v, cfg, Run(v, cfg, s, es))
    decreases |es|
  {
    if es == [] {
    } else {
      StepInv(v, cfg, s, es[0]);
      RunInv(v, cfg, Step(v, cfg, s, es[0]), es[1..]);
    }
  }
}
