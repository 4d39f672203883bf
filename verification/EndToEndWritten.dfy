/** When the written session and the written tunnel, running together, go through the intended states. */
module EndToEndWritten {
  import opened Bytes
  import opened Readings
  import DataChannel
  import opened Socks5Frames
  import opened Socks5Session
  import opened TunnelSides
  import F = Socks5Safety
  import T = Tunnel
  import Q = Socks5Readings
  import R = TunnelReadings
  import E = EndToEnd

  ghost predicate Fitting(cfg: Config, w: E.World) {
    F.Inv(Written, cfg, w.session) && (w.tunnel.Some? ==> T.Inv(Written, w.tunnel.value))
  }

  /** The connector has just heard of the connection. */
  predicate Hears(before: Client, after: Client) {
    |after.signals| > |before.signals| && after.signals[|after.signals| - 1].SigConnected?
  }

  /** The event is smooth for the session and for the tunnel, and a dialled host fits the length octet. */
  predicate Smooth(cfg: Config, w: E.World, e: E.Event) {
    match e
    case ClientSends(chunk) =>
      var s1 := Step(Written, cfg, w.session, Data(chunk));
      Q.Smooth(cfg, w.session, Data(chunk))
      && (w.session.status.Forward? ==> |chunk| <= DataChannel.MAX_MESSAGE)
      && (|s1.dials| > |w.session.dials| ==> |s1.target.host| <= 127)
    case ClientLeaves => true
    case TunnelMoves(step, _) =>
      w.tunnel.Some? ==>
        R.Smooth(w.tunnel.value, step)
        && (Hears(w.tunnel.value.c, T.Take(Written, w.tunnel.value, step).c) ==> |w.session.buf| == w.session.targetLen)
  }

  lemma DriveAgrees(t: T.Tunnel, before: Session, after: Session)
    requires T.Inv(Written, t) && |E.Beyond(before.forwarded, after.forwarded)| <= DataChannel.MAX_MESSAGE
    ensures E.Drive(Written, t, before, after) == E.Drive(Intended, t, before, after)
    ensures T.Inv(Written, E.Drive(Written, t, before, after))
  {
    var d := E.Beyond(before.forwarded, after.forwarded);
    var t1 := if d != [] then T.Take(Written, t, T.LocalWrites(d)) else t;
    if d != [] {
      R.TakeAgrees(t, T.LocalWrites(d));
      T.TakeInv(Written, t, T.LocalWrites(d));
    }
    R.TakeAgrees(t1, T.LocalCloses);
    T.TakeInv(Written, t1, T.LocalCloses);
  }

  /** One read forwards at most the octets read. */
  lemma DataForwards(cfg: Config, s: Session, chunk: seq<byte>)
    requires F.Inv(Written, cfg, s) && Q.Smooth(cfg, s, Data(chunk))
    ensures var s1 := Step(Written, cfg, s, Data(chunk));
            s1 == Step(Intended, cfg, s, Data(chunk))
            && s1.forwarded == s.forwarded + if Live(s) && s.status.Forward? then chunk else []
  {
    Q.StepAgrees(cfg, s, Data(chunk));
    if Live(s) && !s.status.Forward? {
      E.DataKept(Written, cfg, s, chunk);
    }
  }

  lemma ClientSendsAgrees(cfg: Config, w: E.World, chunk: seq<byte>)
    requires Fitting(cfg, w) && Smooth(cfg, w, E.ClientSends(chunk))
    ensures E.Next(Written, cfg, w, E.ClientSends(chunk)) == E.Next(Intended, cfg, w, E.ClientSends(chunk))
    ensures Fitting(cfg, E.Next(Written, cfg, w, E.ClientSends(chunk)))
  {
    var s1 := Step(Written, cfg, w.session, Data(chunk));
    DataForwards(cfg, w.session, chunk);
    F.StepInv(Written, cfg, w.session, Data(chunk));
    if w.tunnel.Some? {
      DriveAgrees(w.tunnel.value, w.session, s1);
    } else if |s1.dials| > |w.session.dials| {
      DialledFits(cfg, w.session, chunk);
      T.StartInv(Written, s1.target.host, s1.target.port);
    }
  }

  /** A host that is dialled has no NUL. */
  lemma DialledFits(cfg: Config, s: Session, chunk: seq<byte>)
    requires F.Inv(Written, cfg, s) && Q.Smooth(cfg, s, Data(chunk))
    requires var s1 := Step(Written, cfg, s, Data(chunk)); |s1.dials| > |s.dials|
    ensures 0 !in Step(Written, cfg, s, Data(chunk)).target.host
  {
    var s1 := Step(Written, cfg, s, Data(chunk));
    Q.StepAgrees(cfg, s, Data(chunk));
    F.StepInv(Written, cfg, s, Data(chunk));
    if !s.status.Forward? {
      E.DataKept(Written, cfg, s, chunk);
      E.HostTextFits(s1.buf[..s1.targetLen]);
    }
  }

  lemma FailedAgrees(cfg: Config, s: Session, code: int)
    requires F.Inv(Written, cfg, s)
    ensures var s1 := Step(Written, cfg, s, Failed(code, NullAddress, 0));
            s1 == Step(Intended, cfg, s, Failed(code, NullAddress, 0))
            && F.Inv(Written, cfg, s1) && s1.forwarded == s.forwarded
  {
    Q.StepAgrees(cfg, s, Failed(code, NullAddress, 0));
    F.StepInv(Written, cfg, s, Failed(code, NullAddress, 0));
  }

  lemma ConnectedAgrees(cfg: Config, s: Session, a: HostAddress, p: port)
    requires F.Inv(Written, cfg, s) && |s.buf| == s.targetLen
    ensures var s1 := Step(Written, cfg, s, Connected(a, p));
            s1 == Step(Intended, cfg, s, Connected(a, p)) && F.Inv(Written, cfg, s1) && s1.forwarded == s.forwarded
  {
    Q.StepAgrees(cfg, s, Connected(a, p));
    F.StepInv(Written, cfg, s, Connected(a, p));
    if Live(s) && s.peer.Dialling? {
      var u := ProcessReply(s, SUCCEEDED, a, p).(status := Forward, peer := Peer.Linked);
      F.RemoveForward(Written, cfg, u, s.targetLen);
    }
  }

  lemma SignalAgrees(cfg: Config, s: Session, signal: Signal, a: HostAddress, p: port)
    requires F.Inv(Written, cfg, s) && (signal.SigConnected? ==> |s.buf| == s.targetLen)
    ensures var e := E.SignalEvent(signal, a, p);
            var s1 := Step(Written, cfg, s, e);
            s1 == Step(Intended, cfg, s, e) && F.Inv(Written, cfg, s1) && s1.forwarded == s.forwarded
  {
    match signal
    case SigConnected => ConnectedAgrees(cfg, s, a, p);
    case SigError(code) => FailedAgrees(cfg, s, code);
  }

  /** What the session hears does not make it forward anything. */
  lemma HearAgrees(cfg: Config, s: Session, before: Client, after: Client, a: HostAddress)
    requires F.Inv(Written, cfg, s) && (Hears(before, after) ==> |s.buf| == s.targetLen)
    ensures var s1 := E.Hear(Written, cfg, s, before, after, a);
            s1 == E.Hear(Intended, cfg, s, before, after, a)
            && F.Inv(Written, cfg, s1) && s1.forwarded == s.forwarded
  {
    if |after.signals| > |before.signals| {
      SignalAgrees(cfg, s, after.signals[|after.signals| - 1], a, after.bindPort);
    }
  }

  lemma TunnelMovesAgrees(cfg: Config, w: E.World, step: T.Step, a: HostAddress)
    requires Fitting(cfg, w) && Smooth(cfg, w, E.TunnelMoves(step, a))
    ensures E.Next(Written, cfg, w, E.TunnelMoves(step, a)) == E.Next(Intended, cfg, w, E.TunnelMoves(step, a))
    ensures Fitting(cfg, E.Next(Written, cfg, w, E.TunnelMoves(step, a)))
  {
    if w.tunnel.Some? && !step.LocalWrites? && !step.LocalCloses? {
      var t := w.tunnel.value;
      var t1 := T.Take(Written, t, step);
      R.TakeAgrees(t, step);
      T.TakeInv(Written, t, step);
      HearAgrees(cfg, w.session, t.c, t1.c, a);
      var s1 := E.Hear(Written, cfg, w.session, t.c, t1.c, a);
      assert E.Beyond(w.session.forwarded, s1.forwarded) == [];
      DriveAgrees(t1, w.session, s1);
      var g := E.Beyond(t.c.given, t1.c.given);
      Q.StepAgrees(cfg, s1, PeerData(g));
      F.StepInv(Written, cfg, s1, PeerData(g));
    }
  }

  lemma NextAgrees(cfg: Config, w: E.World, e: E.Event)
    requires Fitting(cfg, w) && Smooth(cfg, w, e)
    ensures E.Next(Written, cfg, w, e) == E.Next(Intended, cfg, w, e)
    ensures Fitting(cfg, E.Next(Written, cfg, w, e))
  {
    match e
    case ClientSends(chunk) => ClientSendsAgrees(cfg, w, chunk);
    case ClientLeaves =>
      var s1 := Step(Written, cfg, w.session, Hangup);
      F.StepInv(Written, cfg, w.session, Hangup);
      if w.tunnel.Some? {
        assert E.Beyond(w.session.forwarded, s1.forwarded) == [];
        DriveAgrees(w.tunnel.value, w.session, s1);
      }
    case TunnelMoves(step, a) => TunnelMovesAgrees(cfg, w, step, a);
  }

  /** Every event of the run is smooth in the state where it happens. */
  predicate SmoothRun(cfg: Config, w: E.World, es: seq<E.Event>)
    decreases |es|
  {
    es == [] || (Smooth(cfg, w, es[0]) && SmoothRun(cfg, E.Next(Written, cfg, w, es[0]), es[1..]))
  }

  lemma {:induction false} RunAgrees(cfg: Config, w: E.World, es: seq<E.Event>)
    requires Fitting(cfg, w) && SmoothRun(cfg, w, es)
    ensures E.Run(Written, cfg, w, es) == E.Run(Intended, cfg, w, es)
    decreases |es|
  {
    if es == [] {
    } else {
      NextAgrees(cfg, w, es[0]);
      RunAgrees(cfg, E.Next(Written, cfg, w, es[0]), es[1..]);
    }
  }

  /** On every smooth run the written program goes through exactly the intended states. (What it keeps on all runs
      is EndToEndTransparency.) */
  lemma WrittenAsIntended(cfg: Config, es: seq<E.Event>)
    requires SmoothRun(cfg, E.NewWorld(), es)
    ensures E.Run(Written, cfg, E.NewWorld(), es) == E.Run(Intended, cfg, E.NewWorld(), es)
  {
    F.FreshInv(Written, cfg);
    RunAgrees(cfg, E.NewWorld(), es);
  }
}
