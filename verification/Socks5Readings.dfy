/** When the written session goes through the intended states. */
module Socks5Readings {
  import opened Bytes
  import opened Readings
  import opened Socks5Frames
  import opened Socks5Session
  import opened Socks5Chunking
  import opened Socks5Safety
  import Socks5OneShot

  predicate SmoothLogin(chosen: byte, rest: seq<byte>) {
    chosen == USER_PASSWORD ==> ParseLogin(rest).None? || ParseLogin(rest).value.BadLoginVersion?
  }

  /** An event at which the written code does what is intended: fewer than 128 methods, no complete login, no read
      while the dial is pending, and nothing waiting behind the request when the dial succeeds. */
  predicate Smooth(cfg: Config, s: Session, e: Event) {
    match e
    case Data(chunk) =>
      var b := s.buf + chunk;
      (match s.status
       case Negotiate =>
         b == [] || (b[0] < 128
                     && var p := ParseMethods(Intended, b);
                        p.None? || SmoothLogin(Select(cfg.methods, p.value.offered), b[p.value.len..]))
       case Authentication => SmoothLogin(s.chosen, b)
       case ClientRequest => !s.peer.Dialling?
       case Forward => s.buf == [])
    case Connected(_, _) => |s.buf| == s.targetLen
    case _ => true
  }

  lemma LoginReadingsSmooth(cfg: Config, s: Session)
    requires s.open && s.status.Authentication? && s.peer.NoPeer? && SmoothLogin(s.chosen, s.buf)
    ensures ProcessAuthenticator(Written, cfg, s) == ProcessAuthenticator(Intended, cfg, s)
  {
    if s.chosen == NO_AUTHENTICATION {
      var t := s.(status := ClientRequest);
      StageHandler(Written, cfg, t);
      StageHandler(Intended, cfg, t);
      Socks5OneShot.RequestReadings(t);
    }
  }

  lemma NegotiateReadingsSmooth(cfg: Config, s: Session)
    requires Live(s) && s.status.Negotiate? && s.peer.NoPeer?
    requires s.buf == [] || s.buf[0] < 128
    requires var p := ParseMethods(Intended, s.buf);
             p.None? || SmoothLogin(Select(cfg.methods, p.value.offered), s.buf[p.value.len..])
    ensures ProcessNegotiate(Written, cfg, s) == ProcessNegotiate(Intended, cfg, s)
  {
    var p := ParseMethods(Intended, s.buf);
    assert ParseMethods(Written, s.buf) == p;
    if p.Some? {
      var m := p.value;
      var chosen := Select(cfg.methods, m.offered);
      var u := Send(s, MethodReply(chosen)).(chosen := chosen, status := Authentication);
      RemoveFrame(Written, cfg, u, m.len);
      RemoveFrame(Intended, cfg, u, m.len);
      LoginReadingsSmooth(cfg, Taken(u, m.len));
    }
  }

  lemma ReadAgrees(cfg: Config, s: Session, chunk: seq<byte>)
    requires Live(s) && LiveInv(Written, cfg, s) && Smooth(cfg, s, Data(chunk))
    ensures Read(Written, cfg, s, chunk) == Read(Intended, cfg, s, chunk)
  {
    match s.status
    case Negotiate => NegotiateReadingsSmooth(cfg, Grown(s, chunk));
    case Authentication => LoginReadingsSmooth(cfg, Grown(s, chunk));
    case ClientRequest =>
      ReadRequestStage(Written, cfg, s, chunk);
      ReadRequestStage(Intended, cfg, s, chunk);
      Socks5OneShot.RequestReadings(Grown(s, chunk));
    case Forward =>
      assert s.forwarded + s.buf + chunk == s.forwarded + chunk;
  }

  lemma ConnectAgrees(cfg: Config, s: Session, a: HostAddress, p: port)
    requires Live(s) && LiveInv(Written, cfg, s) && s.peer.Dialling? && |s.buf| == s.targetLen
    ensures PeerConnected(Written, cfg, s, a, p) == PeerConnected(Intended, cfg, s, a, p)
  {
    var u := ProcessReply(s, SUCCEEDED, a, p).(status := Forward, peer := Linked);
    RemoveForward(Written, cfg, u, s.targetLen);
    RemoveForward(Intended, cfg, u, s.targetLen);
  }

  lemma StepAgrees(cfg: Config, s: Session, e: Event)
    requires Inv(Written, cfg, s) && Smooth(cfg, s, e)
    ensures Step(Written, cfg, s, e) == Step(Intended, cfg, s, e)
  {
    if Live(s) && Enabled(s, e) {
      match e
      case Data(chunk) => ReadAgrees(cfg, s, chunk);
      case Connected(a, p) => ConnectAgrees(cfg, s, a, p);
      case _ =>
    }
  }

  /** Every event of the run is smooth in the state where it happens. */
  predicate SmoothRun(cfg: Config, s: Session, es: seq<Event>)
    decreases |es|
  {
    es == [] || (Smooth(cfg, s, es[0]) && SmoothRun(cfg, Step(Written, cfg, s, es[0]), es[1..]))
  }

  /** On a smooth run the written code goes through exactly the intended states. */
  lemma {:induction false} RunAgrees(cfg: Config, s: Session, es: seq<Event>)
    requires Inv(Written, cfg, s) && SmoothRun(cfg, s, es)
    ensures Run(Written, cfg, s, es) == Run(Intended, cfg, s, es)
    decreases |es|
  {
    if es == [] {
    } else {
      StepAgrees(cfg, s, es[0]);
      StepInv(Written, cfg, s, es[0]);
      RunAgrees(cfg, Step(Written, cfg, s, es[0]), es[1..]);
    }
  }
}
