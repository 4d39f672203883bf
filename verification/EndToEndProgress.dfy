/** Nothing gets stuck between the client and the target: a dial can be completed, and what is on its way arrives. */
module EndToEndProgress {
  import opened Bytes
  import opened Readings
  import opened Socks5Frames
  import opened Socks5Session
  import TunnelCodec
  import opened TunnelSides
  import opened EndToEnd
  import F = Socks5Safety
  import T = Tunnel
  import P = TunnelProgress

  /** Tunnel steps as events of the whole. */
  function Moves(steps: seq<T.Step>, a: HostAddress): seq<EndToEnd.Event> {
    seq(|steps|, i requires 0 <= i < |steps| => TunnelMoves(steps[i], a))
  }

  lemma MovesFirst(step: T.Step, steps: seq<T.Step>, a: HostAddress)
    ensures Moves([step] + steps, a) == [TunnelMoves(step, a)] + Moves(steps, a)
  {
  }

  lemma RunFirst(v: Variant, cfg: Config, w: World, e: EndToEnd.Event, es: seq<EndToEnd.Event>)
    ensures EndToEnd.Run(v, cfg, w, [e] + es) == EndToEnd.Run(v, cfg, Next(v, cfg, w, e), es)
  {
    assert ([e] + es)[1..] == es;
  }

  lemma {:induction false} RunAppend(v: Variant, cfg: Config, w: World, es: seq<EndToEnd.Event>, more: seq<EndToEnd.Event>)
    ensures EndToEnd.Run(v, cfg, w, es + more) == EndToEnd.Run(v, cfg, EndToEnd.Run(v, cfg, w, es), more)
    decreases |es|
  {
    if es == [] {
      assert es + more == more;
    } else {
      assert (es + more)[1..] == es[1..] + more;
      RunAppend(v, cfg, Next(v, cfg, w, es[0]), es[1..], more);
    }
  }

  // ---------------------------------------------------------------- queued signals

  ghost predicate Signalled(v: Variant, w: World) {
    w.tunnel.Some? && T.Inv(v, w.tunnel.value) ==> P.Signalled(w.tunnel.value)
  }

  lemma TakeSignalled(v: Variant, t: T.Tunnel, step: T.Step)
    requires Sound(v, t) && (T.Inv(v, t) ==> P.Signalled(t))
    ensures T.Inv(v, T.Take(v, t, step)) ==> P.Signalled(T.Take(v, t, step))
  {
    if T.Inv(v, t) {
      P.TakeSignalled(v, t, step);
    } else {
      T.TakeStuck(t, step);
    }
  }

  lemma DriveSignalled(v: Variant, t: T.Tunnel, before: Session, after: Session)
    requires Sound(v, t) && (T.Inv(v, t) ==> P.Signalled(t))
    ensures var t1 := Drive(v, t, before, after);
            T.Inv(v, t1) ==> P.Signalled(t1)
  {
    var d := Beyond(before.forwarded, after.forwarded);
    var t1 := if d != [] then T.Take(v, t, T.LocalWrites(d)) else t;
    if d != [] {
      TakeSignalled(v, t, T.LocalWrites(d));
      TakeSound(v, t, T.LocalWrites(d));
    }
    TakeSignalled(v, t1, T.LocalCloses);
  }

  lemma NextSignalled(v: Variant, cfg: Config, w: World, e: EndToEnd.Event)
    requires EndToEnd.Inv(v, cfg, w) && Signalled(v, w)
    ensures Signalled(v, Next(v, cfg, w, e))
  {
    if w.tunnel.Some? {
      var t := w.tunnel.value;
      match e
      case ClientSends(chunk) => DriveSignalled(v, t, w.session, Step(v, cfg, w.session, Data(chunk)));
      case ClientLeaves => DriveSignalled(v, t, w.session, Step(v, cfg, w.session, Hangup));
      case TunnelMoves(step, a) =>
        var t1 := T.Take(v, t, step);
        TakeSignalled(v, t, step);
        TakeSound(v, t, step);
        DriveSignalled(v, t1, w.session, Hear(v, cfg, w.session, t.c, t1.c, a));
    }
  }

  lemma {:induction false} RunSignalled(v: Variant, cfg: Config, w: World, es: seq<EndToEnd.Event>)
    requires EndToEnd.Inv(v, cfg, w) && Signalled(v, w)
    ensures Signalled(v, EndToEnd.Run(v, cfg, w, es))
    decreases |es|
  {
    if es == [] {
    } else {
      NextInv(v, cfg, w, es[0]);
      NextSignalled(v, cfg, w, es[0]);
      RunSignalled(v, cfg, Next(v, cfg, w, es[0]), es[1..]);
    }
  }

  // ---------------------------------------------------------------- tunnel steps under a live session

  /** A step that signals nothing moves the tunnel alone. */
  lemma QuietMove(v: Variant, cfg: Config, w: World, step: T.Step, a: HostAddress)
    requires EndToEnd.Inv(v, cfg, w) && w.tunnel.Some? && Live(w.session)
    requires !step.LocalWrites? && !step.LocalCloses?
    requires T.Take(v, w.tunnel.value, step).c.signals == w.tunnel.value.c.signals
    requires T.Take(v, w.tunnel.value, step).c.given == w.tunnel.value.c.given || w.session.peer.Linked?
    ensures var u := Next(v, cfg, w, TunnelMoves(step, a));
            EndToEnd.Inv(v, cfg, u) && Live(u.session) && u.session.forwarded == w.session.forwarded
            && u.tunnel == Some(T.Take(v, w.tunnel.value, step))
  {
    var s, t := w.session, w.tunnel.value;
    var t1 := T.Take(v, t, step);
    NextInv(v, cfg, w, TunnelMoves(step, a));
    MoveIs(v, cfg, w, step, a);
    var g := Beyond(t.c.given, t1.c.given);
    if g != [] {
      RelayEffect(v, cfg, s, g);
    }
  }

  /** The steps that deliver and read. */
  predicate Delivers(step: T.Step) {
    step.UpArrives? || step.ServerReads? || step.DownArrives? || step.ClientReads?
  }

  lemma {:induction false} DrainDelivers(arrival: T.Step, n: nat, read: T.Step)
    requires Delivers(arrival) && Delivers(read)
    ensures forall i :: 0 <= i < |P.Drain(arrival, n, read)| ==> Delivers(P.Drain(arrival, n, read)[i])
  {
    if n == 0 {
    } else {
      DrainDelivers(arrival, n - 1, read);
    }
  }

  predicate LinkedUp(v: Variant, cfg: Config, w: World) {
    EndToEnd.Inv(v, cfg, w) && w.tunnel.Some? && Live(w.session) && w.session.peer.Linked?
  }

  /** While the session is linked, delivering and reading take the whole where they take the tunnel. */
  lemma {:induction false} LinkedMoves(v: Variant, cfg: Config, w: World, steps: seq<T.Step>, a: HostAddress)
    requires LinkedUp(v, cfg, w) && forall i :: 0 <= i < |steps| ==> Delivers(steps[i])
    ensures var u := EndToEnd.Run(v, cfg, w, Moves(steps, a));
            LinkedUp(v, cfg, u) && u.session.forwarded == w.session.forwarded
            && u.tunnel == Some(T.Run(v, w.tunnel.value, steps))
    decreases |steps|
  {
    if steps == [] {
      assert Moves(steps, a) == [];
    } else {
      var step, rest := steps[0], steps[1..];
      assert steps == [step] + rest;
      LinkedMove(v, cfg, w, step, a);
      var u := Next(v, cfg, w, TunnelMoves(step, a));
      MovesFirst(step, rest, a);
      RunFirst(v, cfg, w, TunnelMoves(step, a), Moves(rest, a));
      LinkedMoves(v, cfg, u, rest, a);
    }
  }

  lemma LinkedMove(v: Variant, cfg: Config, w: World, step: T.Step, a: HostAddress)
    requires LinkedUp(v, cfg, w) && Delivers(step)
    ensures var u := Next(v, cfg, w, TunnelMoves(step, a));
            LinkedUp(v, cfg, u) && u.session.forwarded == w.session.forwarded
            && u.tunnel == Some(T.Take(v, w.tunnel.value, step))
  {
    var t := w.tunnel.value;
    assert t.c.mode.Forword?;
    assert T.Take(v, t, step).c.signals == t.c.signals;
    assert T.Take(v, t, step).c.mode.Forword?;
    QuietMove(v, cfg, w, step, a);
  }

  // ---------------------------------------------------------------- completing a dial

  predicate Unheard(step: T.Step) {
    !step.ClientReads? && !step.LocalWrites? && !step.LocalCloses?
  }

  lemma UnheardMove(v: Variant, cfg: Config, w: World, step: T.Step, a: HostAddress)
    requires EndToEnd.Inv(v, cfg, w) && w.tunnel.Some? && Live(w.session) && Unheard(step)
    ensures var u := Next(v, cfg, w, TunnelMoves(step, a));
            EndToEnd.Inv(v, cfg, u) && u == World(w.session, Some(T.Take(v, w.tunnel.value, step)))
  {
    var t := w.tunnel.value;
    OtherTunnelStep(v, t, step);
    QuietMove(v, cfg, w, step, a);
    MoveIs(v, cfg, w, step, a);
  }

  lemma {:induction false} UnheardMoves(v: Variant, cfg: Config, w: World, steps: seq<T.Step>, a: HostAddress)
    requires EndToEnd.Inv(v, cfg, w) && w.tunnel.Some? && Live(w.session)
    requires forall i :: 0 <= i < |steps| ==> Unheard(steps[i])
    ensures var u := EndToEnd.Run(v, cfg, w, Moves(steps, a));
            EndToEnd.Inv(v, cfg, u) && u == World(w.session, Some(T.Run(v, w.tunnel.value, steps)))
    decreases |steps|
  {
    if steps == [] {
      assert Moves(steps, a) == [];
    } else {
      var step, rest := steps[0], steps[1..];
      assert steps == [step] + rest;
      UnheardMove(v, cfg, w, step, a);
      MovesFirst(step, rest, a);
      RunFirst(v, cfg, w, TunnelMoves(step, a), Moves(rest, a));
      UnheardMoves(v, cfg, Next(v, cfg, w, TunnelMoves(step, a)), rest, a);
    }
  }

  /** The session has dialled and the tunnel has done nothing yet. */
  predicate JustDialled(v: Variant, cfg: Config, w: World) {
    EndToEnd.Inv(v, cfg, w) && Live(w.session) && w.session.peer.Dialling?
    && w.tunnel == Some(T.Start(w.session.target.host, w.session.target.port))
    && |w.session.target.host| <= TunnelCodec.MaxHost(v) && 0 !in w.session.target.host
  }

  /** The request is parsed, something happens to the target, and its reply arrives. */
  function Replied(happens: T.Step): seq<T.Step> {
    [T.Open, T.UpArrives, T.ServerReads] + [happens, T.DownArrives]
  }

  lemma RepliedRuns(v: Variant, cfg: Config, w: World, happens: T.Step, a: HostAddress)
    requires JustDialled(v, cfg, w) && Unheard(happens)
    ensures var t := T.Run(v, w.tunnel.value, Replied(happens));
            var u := EndToEnd.Run(v, cfg, w, Moves(Replied(happens), a));
            EndToEnd.Inv(v, cfg, u) && u == World(w.session, Some(t))
  {
    UnheardMoves(v, cfg, w, Replied(happens), a);
  }

  lemma RepliedThenRead(v: Variant, t: T.Tunnel, happens: T.Step)
    ensures T.Run(v, t, [T.Open, T.UpArrives, T.ServerReads] + [happens, T.DownArrives, T.ClientReads])
         == T.Take(v, T.Run(v, t, Replied(happens)), T.ClientReads)
  {
    var first := [T.Open, T.UpArrives, T.ServerReads];
    P.RunAppend(v, t, Replied(happens), [T.ClientReads]);
    P.RunFirst(v, T.Run(v, t, Replied(happens)), T.ClientReads, []);
    assert [T.ClientReads] + [] == [T.ClientReads];
    assert Replied(happens) + [T.ClientReads] == first + [happens, T.DownArrives, T.ClientReads];
  }

  lemma LastRead(v: Variant, cfg: Config, w: World, u: World, happens: T.Step, a: HostAddress)
    requires u == EndToEnd.Run(v, cfg, w, Moves(Replied(happens), a))
    ensures EndToEnd.Run(v, cfg, w, Moves(Replied(happens) + [T.ClientReads], a)) == Next(v, cfg, u, TunnelMoves(T.ClientReads, a))
  {
    var last := [TunnelMoves(T.ClientReads, a)];
    assert Moves(Replied(happens) + [T.ClientReads], a) == Moves(Replied(happens), a) + last;
    RunAppend(v, cfg, w, Moves(Replied(happens), a), last);
    RunFirst(v, cfg, u, TunnelMoves(T.ClientReads, a), []);
    assert last + [] == last;
  }

  /** Every dial whose host fits the tunnel can be completed: the session is then linked to its target. */
  lemma DialCompletes(v: Variant, cfg: Config, w: World, bind: seq<byte>, bindPort: port, a: HostAddress)
    requires JustDialled(v, cfg, w) && T.BindText(bind)
    ensures var u := EndToEnd.Run(v, cfg, w, Moves(Replied(T.TargetConnects(bind, bindPort)) + [T.ClientReads], a));
            LinkedUp(v, cfg, u) && u.session.dials == w.session.dials && u.tunnel.value.s.target.Up?
            && u.tunnel.value.c.lost == [] && u.tunnel.value.targetSent == []
            && u.session == Step(v, cfg, w.session, Connected(a, bindPort))
            && w.session.targetLen <= |w.session.buf|
            && u.session.forwarded == if v.Written? then [] else w.session.buf[w.session.targetLen..]
  {
    var happens := T.TargetConnects(bind, bindPort);
    RepliedRuns(v, cfg, w, happens, a);
    RepliedThenRead(v, w.tunnel.value, happens);
    var u := EndToEnd.Run(v, cfg, w, Moves(Replied(happens), a));
    var t := u.tunnel.value;
    P.HandshakeCompletes(v, w.session.target.host, w.session.target.port, bind, bindPort);
    assert t.c.mode.Connect? && T.Inv(v, t);
    ReadLinks(v, t);
    HearsIt(v, cfg, u, a);
    LastRead(v, cfg, w, u, happens, a);
  }

  predicate SameTarget(t: T.Tunnel, u: T.Tunnel) {
    u.s == t.s && u.c.lost == t.c.lost && u.targetSent == t.targetSent
  }

  /** What a session does to its connector does not touch the other direction. */
  lemma DriveKeeps(v: Variant, t: T.Tunnel, before: Session, after: Session)
    ensures SameTarget(t, Drive(v, t, before, after))
  {
  }

  lemma ReadLinks(v: Variant, t: T.Tunnel)
    requires T.Inv(v, t) && t.c.mode.Connect? && T.Take(v, t, T.ClientReads).c.mode.Forword?
    ensures t.s.mode.Forword? && t.downReady > 0
  {
    if T.Enabled(t, T.ClientReads) {
      ClientReadsEffect(v, t);
    }
  }

  /** A read that brings the client connector to FORWORD links the session. */
  lemma HearsIt(v: Variant, cfg: Config, u: World, a: HostAddress)
    requires EndToEnd.Inv(v, cfg, u) && u.tunnel.Some? && Live(u.session) && u.session.peer.Dialling?
    requires u.tunnel.value.s.mode.Forword? && u.tunnel.value.downReady > 0 && T.Inv(v, u.tunnel.value)
    ensures var u1 := Next(v, cfg, u, TunnelMoves(T.ClientReads, a));
            LinkedUp(v, cfg, u1) && u1.session.dials == u.session.dials
            && SameTarget(T.Take(v, u.tunnel.value, T.ClientReads), u1.tunnel.value)
            && (T.Take(v, u.tunnel.value, T.ClientReads).c.given == u.tunnel.value.c.given ==>
                  u1.session == Step(v, cfg, u.session, Connected(a, T.Take(v, u.tunnel.value, T.ClientReads).c.bindPort)))
            && u.session.targetLen <= |u.session.buf|
            && u1.session.forwarded == if v.Written? then [] else u.session.buf[u.session.targetLen..]
  {
    var s, t := u.session, u.tunnel.value;
    var t1 := T.Take(v, t, T.ClientReads);
    assert t.c.mode.Connect? && t.c.signals == [];
    assert T.Enabled(t, T.ClientReads);
    ClientReadsEffect(v, t);
    ConnectedEffect(v, cfg, s, a, t1.c.bindPort);
    HearsConnection(v, cfg, s, t.c, t1.c, a);
    var s1 := Step(v, cfg, s, Connected(a, t1.c.bindPort));
    RelayEffect(v, cfg, s1, Beyond(t.c.given, t1.c.given));
    DriveKeeps(v, t1, s, s1);
    MoveIs(v, cfg, u, T.ClientReads, a);
    NextInv(v, cfg, u, TunnelMoves(T.ClientReads, a));
  }

  /** And every way the target can go reaches the session. */
  lemma FailureReaches(v: Variant, cfg: Config, w: World, f: T.Fate, a: HostAddress)
    requires JustDialled(v, cfg, w) && P.Possible(f)
    ensures var u := EndToEnd.Run(v, cfg, w, Moves(Replied(P.GoesBy(f)) + [T.ClientReads], a));
            u.session == Step(v, cfg, w.session, Failed(T.Code(f), NullAddress, 0))
  {
    var happens := P.GoesBy(f);
    RepliedRuns(v, cfg, w, happens, a);
    RepliedThenRead(v, w.tunnel.value, happens);
    var u := EndToEnd.Run(v, cfg, w, Moves(Replied(happens), a));
    P.FailureCompletes(v, w.session.target.host, w.session.target.port, f);
    HearsFailureOf(v, cfg, u, T.Code(f), a);
    LastRead(v, cfg, w, u, happens, a);
  }

  lemma HearsFailureOf(v: Variant, cfg: Config, u: World, err: int, a: HostAddress)
    requires EndToEnd.Inv(v, cfg, u) && u.tunnel.Some? && Live(u.session) && u.session.peer.Dialling?
    requires T.Take(v, u.tunnel.value, T.ClientReads).c.signals == [SigError(err)]
    ensures Next(v, cfg, u, TunnelMoves(T.ClientReads, a)).session
         == Step(v, cfg, u.session, Failed(err, NullAddress, 0))
  {
    var s, t := u.session, u.tunnel.value;
    var t1 := T.Take(v, t, T.ClientReads);
    assert t.c.mode.Connect? && t.c.signals == [];
    assert T.Enabled(t, T.ClientReads);
    ClientReadsEffect(v, t);
    HearsFailure(v, cfg, s, t.c, t1.c, a);
    MoveIs(v, cfg, u, T.ClientReads, a);
  }

  // ---------------------------------------------------------------- the results

  /** After every run that has linked a session to a target, delivering and reading what is on the channel gives the
      target everything the session forwarded, and the client everything the target sent but what was lost with the
      reply. */
  lemma EverythingArrivesEndToEnd(v: Variant, cfg: Config, es: seq<EndToEnd.Event>, a: HostAddress)
    requires AllFit(v, es)
    requires var w := EndToEnd.Run(v, cfg, NewWorld(), es);
             Live(w.session) && w.session.peer.Linked? && w.tunnel.Some? && w.tunnel.value.s.target.Up?
    ensures var w := EndToEnd.Run(v, cfg, NewWorld(), es);
            var u := EndToEnd.Run(v, cfg, w, Moves(P.DrainBoth(w.tunnel.value), a));
            u.tunnel.Some? && u.tunnel.value.s.toTarget == w.session.forwarded == u.session.forwarded
            && u.tunnel.value.c.lost + Relayed(u.session.sent) == w.tunnel.value.targetSent
            && u.tunnel.value.c.lost == w.tunnel.value.c.lost
  {
    F.FreshInv(v, cfg);
    EndToEnd.RunInv(v, cfg, NewWorld(), es);
    RunSignalled(v, cfg, NewWorld(), es);
    RunPosted(v, cfg, NewWorld(), es);
    var w := EndToEnd.Run(v, cfg, NewWorld(), es);
    var t := w.tunnel.value;
    P.BothDrain(v, t);
    DrainDelivers(T.UpArrives, |t.up|, T.ServerReads);
    DrainDelivers(T.DownArrives, |t.down|, T.ClientReads);
    LinkedMoves(v, cfg, w, P.DrainBoth(t), a);
  }
}
