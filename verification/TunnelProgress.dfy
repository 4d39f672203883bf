/** Nothing gets stuck in the tunnel: the handshake can be completed, and from every state of every run the channel
    can be drained so that both ends have been given everything. */
module TunnelProgress {
  import opened Bytes
  import opened Readings
  import opened DataChannel
  import opened TunnelCodec
  import opened TunnelSides
  import opened Tunnel

  /** Octets waiting in m_data always have a readyRead signal queued for them. */
  predicate Signalled(t: Tunnel) {
    (t.s.data != [] ==> t.upReady > 0) && (t.c.data != [] ==> t.downReady > 0)
  }

  lemma TakeSignalled(v: Variant, t: Tunnel, a: Step)
    requires Inv(v, t) && Signalled(t)
    ensures Signalled(Take(v, t, a))
  {
    if Enabled(t, a) {
      match a
      case ServerReads => ServerEmpties(v, t);
      case ClientReads => ClientEmpties(v, t);
      case UpArrives => UpSignalled(v, t);
      case DownArrives => DownSignalled(v, t);
      case _ => DataStays(v, t, a);
    }
  }

  lemma UpSignalled(v: Variant, t: Tunnel)
    requires Signalled(t) && t.up != []
    ensures Signalled(Take(v, t, UpArrives))
  {
  }

  lemma DownSignalled(v: Variant, t: Tunnel)
    requires Signalled(t) && t.down != []
    ensures Signalled(Take(v, t, DownArrives))
  {
  }

  /** The other steps leave m_data at both ends, and the signals for it. */
  lemma DataStays(v: Variant, t: Tunnel, a: Step)
    requires !a.ServerReads? && !a.ClientReads? && !a.UpArrives? && !a.DownArrives?
    ensures var u := Take(v, t, a);
            u.s.data == t.s.data && u.c.data == t.c.data && u.upReady == t.upReady && u.downReady == t.downReady
  {
  }

  lemma ServerEmpties(v: Variant, t: Tunnel)
    requires Inv(v, t) && Enabled(t, ServerReads)
    ensures Take(v, t, ServerReads).s.data == []
  {
  }

  lemma ClientEmpties(v: Variant, t: Tunnel)
    requires Inv(v, t) && Enabled(t, ClientReads)
    ensures Take(v, t, ClientReads).c.data == []
  {
    assert t.c.mode.Connect? ==> OnConnectionReply(v, t.c).data == [];
  }

  lemma {:induction false} RunSignalled(v: Variant, t: Tunnel, steps: seq<Step>)
    requires Inv(v, t) && Signalled(t)
    ensures Signalled(Run(v, t, steps))
    decreases |steps|
  {
    if steps == [] {
    } else {
      TakeInv(v, t, steps[0]);
      TakeSignalled(v, t, steps[0]);
      RunSignalled(v, Take(v, t, steps[0]), steps[1..]);
    }
  }

  lemma {:induction false} RunAppend(v: Variant, t: Tunnel, xs: seq<Step>, ys: seq<Step>)
    ensures Run(v, t, xs + ys) == Run(v, Run(v, t, xs), ys)
    decreases |xs|
  {
    if xs == [] {
      assert xs + ys == ys;
    } else {
      assert (xs + ys)[1..] == xs[1..] + ys;
      RunAppend(v, Take(v, t, xs[0]), xs[1..], ys);
    }
  }

  lemma RunFirst(v: Variant, t: Tunnel, a: Step, rest: seq<Step>)
    ensures Run(v, t, [a] + rest) == Run(v, Take(v, t, a), rest)
  {
    assert ([a] + rest)[1..] == rest;
  }

  /** The given arrival step as often as there are messages, and one read. */
  function Drain(arrival: Step, n: nat, read: Step): seq<Step> {
    if n == 0 then [read] else [arrival] + Drain(arrival, n - 1, read)
  }

  /** Everything but the way to the target is as before. */
  predicate DownAsBefore(t: Tunnel, u: Tunnel) {
    u.c == t.c && u.localSent == t.localSent && u.upPosted == t.upPosted && u.s.target == t.s.target
    && u.down == t.down && u.downPosted == t.downPosted && u.targetSent == t.targetSent
  }

  lemma UpRead(v: Variant, t: Tunnel)
    requires Inv(v, t) && Signalled(t) && t.c.mode.Forword? && t.s.target.Up? && t.up == []
    ensures var u := Take(v, t, ServerReads);
            u.s.toTarget == t.upPosted && DownAsBefore(t, u)
  {
    assert t.s.toTarget + t.s.data + [] == t.s.toTarget + t.s.data;
    if t.s.data == [] {
      assert t.s.toTarget + [] == t.s.toTarget;
    }
  }

  lemma {:induction false} UpDrains(v: Variant, t: Tunnel)
    requires Inv(v, t) && Signalled(t) && t.c.mode.Forword? && t.s.target.Up?
    ensures var u := Run(v, t, Drain(UpArrives, |t.up|, ServerReads));
            u.s.toTarget == t.upPosted && DownAsBefore(t, u)
    decreases |t.up|
  {
    if t.up == [] {
      UpRead(v, t);
      RunFirst(v, t, ServerReads, []);
      assert [ServerReads] + [] == [ServerReads];
    } else {
      var t1 := Take(v, t, UpArrives);
      TakeInv(v, t, UpArrives);
      TakeSignalled(v, t, UpArrives);
      RunFirst(v, t, UpArrives, Drain(UpArrives, |t.up| - 1, ServerReads));
      assert DownAsBefore(t, t1);
      UpDrains(v, t1);
    }
  }

  predicate UpAsBefore(t: Tunnel, u: Tunnel) {
    u.s == t.s && u.c.lost == t.c.lost && u.localSent == t.localSent && u.targetSent == t.targetSent
    && u.downPosted == t.downPosted
  }

  lemma DownRead(v: Variant, t: Tunnel)
    requires Inv(v, t) && Signalled(t) && t.c.mode.Forword? && !t.c.closed && t.down == []
    ensures var u := Take(v, t, ClientReads);
            u.c.lost + u.c.given == t.downPosted && UpAsBefore(t, u)
  {
    var front := t.c.lost + t.c.given;
    assert front + t.c.data + [] == t.c.lost + (t.c.given + t.c.data);
    if t.c.data == [] {
      assert t.c.given + [] == t.c.given;
    }
  }

  lemma {:induction false} DownDrains(v: Variant, t: Tunnel)
    requires Inv(v, t) && Signalled(t) && t.c.mode.Forword? && !t.c.closed
    ensures var u := Run(v, t, Drain(DownArrives, |t.down|, ClientReads));
            u.c.lost + u.c.given == t.downPosted && UpAsBefore(t, u)
    decreases |t.down|
  {
    if t.down == [] {
      DownRead(v, t);
      RunFirst(v, t, ClientReads, []);
      assert [ClientReads] + [] == [ClientReads];
    } else {
      var t1 := Take(v, t, DownArrives);
      TakeInv(v, t, DownArrives);
      TakeSignalled(v, t, DownArrives);
      RunFirst(v, t, DownArrives, Drain(DownArrives, |t.down| - 1, ClientReads));
      assert UpAsBefore(t, t1);
      DownDrains(v, t1);
    }
  }

  /** The steps that drain both directions. */
  function DrainBoth(t: Tunnel): seq<Step> {
    Drain(UpArrives, |t.up|, ServerReads) + Drain(DownArrives, |t.down|, ClientReads)
  }

  lemma BothDrain(v: Variant, t: Tunnel)
    requires Inv(v, t) && Signalled(t) && t.c.mode.Forword? && !t.c.closed && t.s.target.Up?
    ensures var u := Run(v, t, DrainBoth(t));
            u.s.toTarget == t.upPosted && u.c.lost + u.c.given == t.downPosted && u.c.lost == t.c.lost
  {
    var ups := Drain(UpArrives, |t.up|, ServerReads);
    UpDrains(v, t);
    RunInv(v, t, ups);
    RunSignalled(v, t, ups);
    DownDrains(v, Run(v, t, ups));
    RunAppend(v, t, ups, Drain(DownArrives, |t.down|, ClientReads));
  }

  /** After every run that has reached FORWORD on both sides, delivering what is on the channel and reading it gives
      the target everything the session wrote and the session everything the target sent, apart from what the
      written code threw away with the reply. */
  lemma EverythingArrives(v: Variant, host: seq<byte>, p: port, steps: seq<Step>)
    requires |host| <= MaxHost(v) && 0 !in host && FaithfulSteps(v, steps)
    requires var t := Run(v, Start(host, p), steps);
             t.c.mode.Forword? && !t.c.closed && t.s.target.Up?
    ensures var t := Run(v, Start(host, p), steps);
            var u := Run(v, t, DrainBoth(t));
            u.s.toTarget == t.localSent && u.c.lost + u.c.given == t.targetSent
            && (v.Intended? ==> u.c.given == t.targetSent)
  {
    var t := Run(v, Start(host, p), steps);
    StartInv(v, host, p);
    RunInv(v, Start(host, p), steps);
    RunSignalled(v, Start(host, p), steps);
    PostedRun(v, Start(host, p), steps);
    BothDrain(v, t);
    var u := Run(v, t, DrainBoth(t));
    if v.Intended? {
      assert [] + u.c.given == u.c.given;
    }
  }

  /** The handshake can be completed for every target and every bind address. */
  lemma HandshakeCompletes(v: Variant, host: seq<byte>, p: port, bind: seq<byte>, bindPort: port)
    requires |host| <= MaxHost(v) && 0 !in host && BindText(bind)
    ensures var steps := [Open, UpArrives, ServerReads] + [TargetConnects(bind, bindPort), DownArrives, ClientReads];
            var t := Run(v, Start(host, p), steps);
            t.c.mode.Forword? && !t.c.closed && t.s.target.Up?
            && t.c.bindHost == bind && t.c.bindPort == bindPort && FaithfulSteps(v, steps)
            && t.c.lost == [] && t.c.given == [] && t.targetSent == []
  {
    var first, second := [Open, UpArrives, ServerReads], [TargetConnects(bind, bindPort), DownArrives, ClientReads];
    Dials(v, host, p);
    Connects(v, Run(v, Start(host, p), first), bind, bindPort);
    RunAppend(v, Start(host, p), first, second);
  }

  lemma RunThree(v: Variant, t: Tunnel, a: Step, b: Step, c: Step)
    ensures Run(v, t, [a, b, c]) == Take(v, Take(v, Take(v, t, a), b), c)
  {
    RunFirst(v, t, a, [b, c]);
    RunFirst(v, Take(v, t, a), b, [c]);
    RunFirst(v, Take(v, Take(v, t, a), b), c, []);
    assert [a] + [b, c] == [a, b, c] && [b] + [c] == [b, c] && [c] + [] == [c];
  }

  lemma Dials(v: Variant, host: seq<byte>, p: port)
    requires |host| <= MaxHost(v) && 0 !in host
    ensures var t := Run(v, Start(host, p), [Open, UpArrives, ServerReads]);
            Inv(v, t) && t.s.target.Dialled? && t.c.mode.Connect? && !t.c.closed && t.c.signals == []
  {
    var t0 := Start(host, p);
    StartInv(v, host, p);
    RequestTravels(v, t0);
    var t2 := Take(v, Take(v, t0, Open), UpArrives);
    RequestDials(v, t2);
    RunThree(v, t0, Open, UpArrives, ServerReads);
  }

  lemma RequestTravels(v: Variant, t: Tunnel)
    requires Inv(v, t) && t == Start(t.c.host, t.c.port)
    ensures var t2 := Take(v, Take(v, t, Open), UpArrives);
            Inv(v, t2) && t2.s == NewServer().(data := Request(t)) && t2.upReady == 1
            && t2.c == ClientConnected(t.c)
  {
    var t1 := Take(v, t, Open);
    TakeInv(v, t, Open);
    ShortFragments(v, Request(t));
    assert [] + [Request(t)] == [Request(t)];
    TakeInv(v, t1, UpArrives);
    assert [] + Request(t) == Request(t);
  }

  lemma RequestDials(v: Variant, t: Tunnel)
    requires Inv(v, t) && t.s == NewServer().(data := Request(t)) && t.upReady == 1
    ensures var u := Take(v, t, ServerReads);
            Inv(v, u) && u.s.target.Dialled? && u.c == t.c
  {
    TakeInv(v, t, ServerReads);
    RequestParsed(v, t.s, t.c.host, t.c.port);
  }

  lemma Connects(v: Variant, t: Tunnel, bind: seq<byte>, bindPort: port)
    requires Inv(v, t) && t.s.target.Dialled? && t.c.mode.Connect? && !t.c.closed && t.c.signals == [] && BindText(bind)
    ensures var u := Run(v, t, [TargetConnects(bind, bindPort), DownArrives, ClientReads]);
            u.c.mode.Forword? && !u.c.closed && u.s.target.Up? && u.c.bindHost == bind && u.c.bindPort == bindPort
            && u.c.lost == [] && u.c.given == [] && u.targetSent == []
  {
    var a := TargetConnects(bind, bindPort);
    var t1 := Take(v, t, a);
    TakeInv(v, t, a);
    ShortFragments(v, SuccessReply(t1));
    assert t1.down == [SuccessReply(t1)];
    var t2 := Take(v, t1, DownArrives);
    TakeInv(v, t1, DownArrives);
    SuccessHeard(v, t2);
    assert t2.c.data == SuccessReply(t2);
    RunThree(v, t, a, DownArrives, ClientReads);
  }

  // ---------------------------------------------------------------- failures

  /** After every run in which the target failed before it connected, unless the session has closed the connector,
      delivering and reading what is on the channel makes the client connector signal that failure. */
  lemma FailureArrives(v: Variant, host: seq<byte>, p: port, steps: seq<Step>)
    requires |host| <= MaxHost(v) && 0 !in host
    requires var t := Run(v, Start(host, p), steps);
             t.failure != [] && !t.c.closed
    ensures var t := Run(v, Start(host, p), steps);
            var u := Run(v, t, Drain(DownArrives, |t.down|, ClientReads));
            u.c.signals == [SigError(Code(t.failure[0]))] && u.failure == t.failure
  {
    var t := Run(v, Start(host, p), steps);
    StartInv(v, host, p);
    RunInv(v, Start(host, p), steps);
    RunSignalled(v, Start(host, p), steps);
    FailureDrains(v, t);
  }

  lemma FailureDrains(v: Variant, t: Tunnel)
    requires Inv(v, t) && Signalled(t) && t.failure != [] && !t.c.closed
    ensures var u := Run(v, t, Drain(DownArrives, |t.down|, ClientReads));
            u.c.signals == [SigError(Code(t.failure[0]))] && u.failure == t.failure
  {
    if t.down == [] {
      FailureHeard(v, t);
      RunFirst(v, t, ClientReads, []);
      assert [ClientReads] + [] == [ClientReads];
    } else {
      var t1 := Take(v, t, DownArrives);
      TakeInv(v, t, DownArrives);
      FailureHeard(v, t1);
      RunFirst(v, t, DownArrives, [ClientReads]);
      RunFirst(v, t1, ClientReads, []);
      assert [ClientReads] + [] == [ClientReads] == Drain(DownArrives, 0, ClientReads);
    }
  }

  /** The step by which a target goes. */
  function GoesBy(f: Fate): Step {
    match f
    case Reported(err) => TargetFails(err)
    case Gone => TargetDisconnects
  }

  predicate Possible(f: Fate) {
    -1 <= Code(f) <= 5 && Code(f) != 0
  }

  /** For every target and every way it can go there is a run in which the client connector hears of it. */
  lemma FailureCompletes(v: Variant, host: seq<byte>, p: port, f: Fate)
    requires |host| <= MaxHost(v) && 0 !in host && Possible(f)
    ensures var t := Run(v, Start(host, p), [Open, UpArrives, ServerReads] + [GoesBy(f), DownArrives, ClientReads]);
            t.failure == [f] && t.c.signals == [SigError(Code(f))]
  {
    var first := [Open, UpArrives, ServerReads];
    Dials(v, host, p);
    var t := Run(v, Start(host, p), first);
    var t1 := Take(v, t, GoesBy(f));
    TakeInv(v, t, GoesBy(f));
    DialledWaits(v, t);
    Goes(v, t, f);
    ReplyIsDown(v, t1);
    var t2 := Take(v, t1, DownArrives);
    TakeInv(v, t1, DownArrives);
    FailureHeard(v, t2);
    RunThree(v, t, GoesBy(f), DownArrives, ClientReads);
    RunAppend(v, Start(host, p), first, [GoesBy(f), DownArrives, ClientReads]);
  }

  lemma Goes(v: Variant, t: Tunnel, f: Fate)
    requires Waiting(t) && Possible(f)
    ensures var t1 := Take(v, t, GoesBy(f));
            t1.failure == [f] && t1.c == t.c && t1.downReady == 0 && t1.s.mode.Connect?
  {
    assert [] + [f] == [f];
  }

  lemma ReplyIsDown(v: Variant, t: Tunnel)
    requires Inv(v, t) && t.failure != [] && t.c.mode.Connect? && t.s.mode.Connect?
    requires t.c.signals == [] && t.c.data == []
    ensures t.down == [EncodeReply(Code(t.failure[0]), [], 0)]
  {
  }

  /** The target is being dialled and nothing is on the way to the client connector. */
  predicate Waiting(t: Tunnel) {
    t.s.target.Dialled? && t.s.mode.Connect? && t.s.bindHost == [] && t.s.bindPort == 0
    && t.failure == [] && t.down == [] && t.downReady == 0
  }

  lemma DialledWaits(v: Variant, t: Tunnel)
    requires Inv(v, t) && t.s.target.Dialled? && t.c.mode.Connect?
    ensures Waiting(t)
  {
  }

  // ---------------------------------------------------------------- losing octets

  /** As written the loss happens: for every target, bind address and block of at most one message there is a run in
      which the client is given nothing of what the target sent. */
  lemma LossHappens(host: seq<byte>, p: port, bind: seq<byte>, bindPort: port, d: seq<byte>)
    requires |host| <= 127 && 0 !in host && BindText(bind) && 0 < |d| <= MAX_MESSAGE
    ensures var t := Run(Written, Start(host, p), [Open, UpArrives, ServerReads]
                         + ([TargetConnects(bind, bindPort), TargetSends(d)] + [DownArrives, DownArrives, ClientReads]));
            t.targetSent == d && t.c.lost == d && t.c.given == [] && t.c.data == [] && t.down == []
  {
    var first, last := [Open, UpArrives, ServerReads], [DownArrives, DownArrives, ClientReads];
    var a, b := TargetConnects(bind, bindPort), TargetSends(d);
    Dials(Written, host, p);
    var t := Run(Written, Start(host, p), first);
    ReplyPosted(t, bind, bindPort);
    var t1 := Take(Written, t, a);
    BlockPosted(t1, d);
    var t2 := Take(Written, t1, b);
    CoalescedReplyLoses(t2, d);
    RunFirst(Written, t, a, [b] + last);
    RunFirst(Written, t1, b, last);
    assert [a] + ([b] + last) == [a, b] + last;
    RunAppend(Written, Start(host, p), first, [a, b] + last);
  }

  /** The target has just connected, and nothing but the reply is on the channel. */
  predicate JustUp(t: Tunnel) {
    t.s.target.Up? && t.s.mode.Forword? && t.c.mode.Connect? && !t.c.closed && t.c.signals == [] && t.c.data == []
    && t.downReady == 0 && t.down == [SuccessReply(t)] && t.targetSent == []
  }

  lemma ReplyPosted(t: Tunnel, bind: seq<byte>, bindPort: port)
    requires Inv(Written, t) && t.s.target.Dialled? && t.c.mode.Connect? && !t.c.closed && t.c.signals == [] && BindText(bind)
    ensures var t1 := Take(Written, t, TargetConnects(bind, bindPort));
            Inv(Written, t1) && JustUp(t1)
  {
    var t1 := Take(Written, t, TargetConnects(bind, bindPort));
    TakeInv(Written, t, TargetConnects(bind, bindPort));
    ShortFragments(Written, SuccessReply(t1));
    assert [] + [SuccessReply(t1)] == [SuccessReply(t1)];
  }

  lemma BlockPosted(t: Tunnel, d: seq<byte>)
    requires Inv(Written, t) && JustUp(t) && 0 < |d| <= MAX_MESSAGE
    ensures var t2 := Take(Written, t, TargetSends(d));
            Inv(Written, t2) && t2.c == t.c && t2.s.mode.Forword? && t2.downReady == 0 && t2.targetSent == d
            && t2.down == [SuccessReply(t2), d]
  {
    TakeInv(Written, t, TargetSends(d));
    ShortFragments(Written, d);
    assert [] + d == d;
  }
}
