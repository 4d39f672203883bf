/** A client connector, a server connector and the two channel directions between them, as a step relation. */
module Tunnel {
  import opened Bytes
  import opened PeerConnector
  import opened Readings
  import opened DataChannel
  import opened TunnelCodec
  import opened TunnelSides

  /** How a target goes before it has connected. */
  datatype Fate = Reported(err: int) | Gone

  /** The error that the server connector replies with: a target that disconnects has not reported any. */
  function Code(f: Fate): int {
    match f
    case Reported(err) => err
    case Gone => ERROR_NOT_ALLOWED
  }

  /** `upReady` and `downReady` count the queued readyRead signals: a message may arrive before the signal of an
      earlier one has been handled, and is then read together with it. */
  datatype Tunnel = Tunnel(
    c: Client, s: Server,
    up: seq<seq<byte>>, upReady: nat,
    down: seq<seq<byte>>, downReady: nat,
    isOpen: bool,
    localSent: seq<byte>, upPosted: seq<byte>,        // written by the session; and as it was posted
    targetSent: seq<byte>, downPosted: seq<byte>,     // sent by the target; and as it was posted
    failure: seq<Fate>,                               // how the target went before it connected
    gone: seq<Fate>                                   // how it went at any time
  )

  datatype Step =
    | Open                                            // the channel opens: the client sends its request
    | UpArrives | ServerReads
    | DownArrives | ClientReads
    | TargetConnects(host: seq<byte>, port: port)
    | TargetFails(err: int)
    | TargetDisconnects
    | TargetSends(data: seq<byte>)
    | LocalWrites(data: seq<byte>)
    | LocalCloses

  function Start(host: seq<byte>, p: port): Tunnel {
    Tunnel(NewClient(host, p), NewServer(), [], 0, [], 0, false, [], [], [], [], [], [])
  }

  predicate BindText(host: seq<byte>) {
    |host| <= 127 && 0 !in host
  }

  predicate Enabled(t: Tunnel, a: Step) {
    match a
    case Open => !t.isOpen && !t.c.closed
    case UpArrives => t.up != []
    case ServerReads => t.upReady > 0 && !t.s.crashed && !t.s.trapped
    case DownArrives => t.down != []
    case ClientReads => t.downReady > 0 && !t.c.closed && !t.c.crashed
    case TargetConnects(host, _) => t.s.target.Dialled? && BindText(host)
    case TargetFails(err) => (t.s.target.Dialled? || t.s.target.Up?) && -1 <= err <= 5 && err != 0
    case TargetDisconnects => t.s.target.Dialled? || t.s.target.Up?
    case TargetSends(_) => t.s.target.Up?
    case LocalWrites(_) => t.c.mode.Forword? && !t.c.closed
    case LocalCloses => true
  }

  /** Posting the last block of a side: its fragments enter the channel. */
  function Posted(v: Variant, flight: seq<seq<byte>>, block: seq<byte>): seq<seq<byte>> {
    flight + Fragments(v, block)
  }

  function Ready(message: seq<byte>): nat {
    if message == [] then 0 else 1
  }

  function Take(v: Variant, t: Tunnel, a: Step): Tunnel {
    if !Enabled(t, a) then t else
    match a
    case Open =>
      t.(isOpen := true, c := ClientConnected(t.c), up := Posted(v, t.up, EncodeRequest(t.c.host, t.c.port)))
    case UpArrives =>
      t.(up := t.up[1..], s := t.s.(data := OnMessage(t.s.data, t.up[0])), upReady := t.upReady + Ready(t.up[0]))
    case ServerReads => t.(upReady := t.upReady - 1, s := ServerReadyRead(v, t.s))
    case DownArrives =>
      t.(down := t.down[1..], c := t.c.(data := OnMessage(t.c.data, t.down[0])), downReady := t.downReady + Ready(t.down[0]))
    case ClientReads => t.(downReady := t.downReady - 1, c := ClientReadyRead(v, t.c))
    case TargetConnects(host, p) =>
      t.(s := ServerPeerConnected(t.s, host, p), down := Posted(v, t.down, EncodeReply(0, host, p)))
    case TargetFails(err) =>
      if t.s.mode.Connect? then
        t.(s := ServerPeerError(t.s, err), down := Posted(v, t.down, EncodeReply(err, t.s.bindHost, t.s.bindPort)),
           failure := t.failure + [Reported(err)], gone := t.gone + [Reported(err)])
      else t.(s := ServerPeerError(t.s, err), gone := t.gone + [Reported(err)])
    case TargetDisconnects =>
      if t.s.mode.Connect? then
        t.(s := ServerPeerDisconnected(t.s),
           down := Posted(v, t.down, EncodeReply(ERROR_NOT_ALLOWED, t.s.bindHost, t.s.bindPort)),
           failure := t.failure + [Gone], gone := t.gone + [Gone])
      else t.(s := ServerPeerDisconnected(t.s), gone := t.gone + [Gone])
    case TargetSends(d) =>
      t.(s := ServerPeerRead(t.s, d), down := Posted(v, t.down, d),
         targetSent := t.targetSent + d, downPosted := t.downPosted + Flat(Fragments(v, d)))
    case LocalWrites(d) =>
      t.(c := ClientWrite(t.c, d), up := Posted(v, t.up, d),
         localSent := t.localSent + d, upPosted := t.upPosted + Flat(Fragments(v, d)))
    case LocalCloses => t.(c := t.c.(closed := true))
  }

  function Run(v: Variant, t: Tunnel, steps: seq<Step>): Tunnel
    decreases |steps|
  {
    if steps == [] then t else Run(v, Take(v, t, steps[0]), steps[1..])
  }

  // ---------------------------------------------------------------- the invariant

  predicate HostFits(v: Variant, t: Tunnel) {
    |t.c.host| <= MaxHost(v) && 0 !in t.c.host
  }

  function Request(t: Tunnel): seq<byte> {
    EncodeRequest(t.c.host, t.c.port)
  }

  function SuccessReply(t: Tunnel): seq<byte> {
    EncodeReply(0, t.s.bindHost, t.s.bindPort)
  }

  /** Where the request is: not sent, on the channel, in m_data, or parsed. */
  predicate RequestPhase(t: Tunnel) {
    if !t.s.target.NoTarget? then t.isOpen && t.s.dials == [Endpoint(t.c.host, t.c.port)]
    else
      t.s.mode.Connect? && t.s.dials == [] && t.s.buffer == [] && t.s.toTarget == []
      && if !t.isOpen then t.up == [] && t.s.data == [] && t.upReady == 0
         else (t.up == [Request(t)] && t.s.data == [] && t.upReady == 0)
              || (t.up == [] && t.s.data == Request(t) && t.upReady == 1)
  }

  /** The direction to the target once the request is parsed: silent until the client has heard of the success. */
  predicate UpStream(t: Tunnel) {
    t.s.toTarget <= t.upPosted
    && (t.c.mode.Connect? ==> t.localSent == [] && t.upPosted == [])
    && (!t.s.target.NoTarget? ==>
          if t.c.mode.Connect? then t.up == [] && t.s.data == [] && t.upReady == 0 && t.s.toTarget == []
          else
            t.s.mode.Forword? && (t.s.target.Up? ==> t.s.toTarget + t.s.data + Flat(t.up) == t.upPosted))
  }

  /** The direction from the target: nothing, one error reply, or one success reply followed by the target's bytes. */
  predicate DownStream(v: Variant, t: Tunnel) {
    if t.c.mode.Forword? then
      t.s.mode.Forword? && t.c.signals == [SigConnected]
      && t.c.bindHost == t.s.bindHost && t.c.bindPort == t.s.bindPort
      && t.c.lost + t.c.given + t.c.data + Flat(t.down) == t.downPosted
      && (v.Intended? ==> t.c.lost == [])
    else
      t.c.given == [] && t.c.lost == [] && (t.c.signals == [] ==> t.c.buffer == [])
      && if t.s.mode.Forword? then
           t.c.signals == []
           && ((t.c.data == [] && t.downReady == 0 && t.down != [] && t.down[0] == SuccessReply(t)
                && Flat(t.down[1..]) == t.downPosted)
               || (SuccessReply(t) <= t.c.data && t.c.data + Flat(t.down) == SuccessReply(t) + t.downPosted))
         else
           t.downPosted == [] && t.targetSent == []
           && if t.failure == [] then t.c.signals == [] && t.c.data == [] && t.downReady == 0 && t.down == []
              else
                |t.failure| == 1 && t.s.target.Down? && -1 <= Code(t.failure[0]) <= 5 && Code(t.failure[0]) != 0
                && t.s.bindHost == []
                && ErrorOnItsWay(t, EncodeReply(Code(t.failure[0]), [], 0))
  }

  predicate ErrorOnItsWay(t: Tunnel, reply: seq<byte>)
    requires t.failure != []
  {
    (t.c.signals == [] && t.c.data == [] && t.downReady == 0 && t.down == [reply])
    || (t.c.signals == [] && t.c.data == reply && t.down == [])
    || (t.c.signals == [SigError(Code(t.failure[0]))] && t.c.closed && t.down == [])
  }

  /** What the server connector signals when its target goes. */
  function ReportOf(f: Fate): Report {
    match f
    case Reported(err) => Failure(err)
    case Gone => Disconnect
  }

  /** The server connector signals how its target went, once. */
  predicate Reports(t: Tunnel) {
    if t.s.target.Down? then |t.gone| == 1 && t.s.signals == [ReportOf(t.gone[0])]
    else t.gone == [] && t.s.signals == []
  }

  predicate ServerShape(t: Tunnel) {
    (t.s.target.Dialled? ==> t.s.mode.Connect? && t.failure == [])
    && (t.s.target.Up? ==> t.s.mode.Forword?)
    && (t.s.mode.Forword? ==> BindText(t.s.bindHost) && t.failure == [])
    && (t.s.mode.Connect? ==> t.s.bindHost == [] && t.s.bindPort == 0)
    && (t.s.target.NoTarget? ==> t.failure == [])
    && (t.s.target.Down? && t.s.mode.Connect? ==> t.failure != [])
    && !t.s.trapped && !t.s.crashed && !t.c.crashed
    && (if t.s.mode.Forword? then
          t.s.posted != [] && t.s.posted[0] == SuccessReply(t) && Flat(t.s.posted[1..]) == t.targetSent
        else |t.s.posted| == |t.failure|)
  }

  predicate Inv(v: Variant, t: Tunnel) {
    HostFits(v, t) && ServerShape(t) && Reports(t) && RequestPhase(t) && UpStream(t) && DownStream(v, t)
  }

  lemma StartInv(v: Variant, host: seq<byte>, p: port)
    requires |host| <= MaxHost(v) && 0 !in host
    ensures Inv(v, Start(host, p))
  {
  }

  // ---------------------------------------------------------------- preservation, step by step

  lemma OpenInv(v: Variant, t: Tunnel)
    requires Inv(v, t) && Enabled(t, Open)
    ensures Inv(v, Take(v, t, Open))
  {
    ShortFragments(v, Request(t));
    assert [] + [Request(t)] == [Request(t)];
  }

  lemma UpArrivesInv(v: Variant, t: Tunnel)
    requires Inv(v, t) && Enabled(t, UpArrives)
    ensures Inv(v, Take(v, t, UpArrives))
  {
    if t.s.target.NoTarget? {
      var only := [Request(t)];
      assert only[1..] == [];
      assert [] + Request(t) == Request(t);
    } else {
      assert t.s.toTarget + t.s.data + (t.up[0] + Flat(t.up[1..])) == t.s.toTarget + (t.s.data + t.up[0]) + Flat(t.up[1..]);
    }
  }

  lemma ServerReadsInv(v: Variant, t: Tunnel)
    requires Inv(v, t) && Enabled(t, ServerReads)
    ensures Inv(v, Take(v, t, ServerReads))
  {
    if t.s.target.NoTarget? {
      assert t.s.data == Request(t) && t.s.buffer == [];
      RequestParsed(v, t.s, t.c.host, t.c.port);
    } else if t.s.target.Up? {
      assert t.s.toTarget + t.s.data + [] == t.s.toTarget + t.s.data;
    }
  }

  /** What the server connector makes of the request. */
  lemma RequestParsed(v: Variant, s: Server, host: seq<byte>, p: port)
    requires s.mode.Connect? && s.target.NoTarget? && s.buffer == [] && s.data == EncodeRequest(host, p)
    requires |host| <= MaxHost(v) && 0 !in host
    ensures ServerReadyRead(v, s)
         == s.(buffer := s.data, data := [], target := Dialled, dials := s.dials + [Endpoint(host, p)])
  {
    assert [] + s.data == s.data;
    RequestRoundTrip(v, host, p, []);
    assert s.data + [] == s.data;
  }

  lemma DownArrivesInv(v: Variant, t: Tunnel)
    requires Inv(v, t) && Enabled(t, DownArrives)
    ensures Inv(v, Take(v, t, DownArrives))
  {
    var m, rest := t.down[0], t.down[1..];
    if t.c.mode.Forword? {
      var front := t.c.lost + t.c.given;
      assert front + t.c.data + (m + Flat(rest)) == front + (t.c.data + m) + Flat(rest);
    } else if t.s.mode.Forword? {
      if t.c.data == [] && t.downReady == 0 && m == SuccessReply(t) {
        assert [] + m == m;
      } else {
        assert t.c.data + (m + Flat(rest)) == (t.c.data + m) + Flat(rest);
      }
    } else {
      assert [] + m == m;
    }
  }

  lemma ClientReadsInv(v: Variant, t: Tunnel)
    requires Inv(v, t) && Enabled(t, ClientReads)
    ensures Inv(v, Take(v, t, ClientReads))
  {
    if t.c.mode.Forword? {
      var tail := Flat(t.down);
      assert t.c.lost + (t.c.given + t.c.data) + [] + tail == t.c.lost + t.c.given + t.c.data + tail;
    } else if t.s.mode.Forword? {
      SuccessHeard(v, t);
      var c := Take(v, t, ClientReads).c;
      assert c.lost + c.given + c.data + Flat(t.down) == t.c.data[|SuccessReply(t)|..] + Flat(t.down) by {
        if v.Written? {
          assert c.lost + [] + [] == c.lost;
        } else {
          assert [] + c.given + [] == c.given;
        }
      }
    } else {
      FailureHeard(v, t);
    }
  }

  lemma FailureHeard(v: Variant, t: Tunnel)
    requires Inv(v, t) && Enabled(t, ClientReads) && t.c.mode.Connect? && t.s.mode.Connect?
    ensures t.failure != [] && t.c.data == EncodeReply(Code(t.failure[0]), [], 0)
    ensures Take(v, t, ClientReads).c
         == t.c.(buffer := t.c.data, data := [], signals := [SigError(Code(t.failure[0]))], closed := true)
  {
    ErrorRoundTrip(v, Code(t.failure[0]), [], 0, []);
    assert [] + t.c.data == t.c.data;
    assert t.c.data + [] == t.c.data;
  }

  /** The client finds the success reply at the front of what it reads. */
  lemma SuccessHeard(v: Variant, t: Tunnel)
    requires Inv(v, t) && Enabled(t, ClientReads) && t.c.mode.Connect? && t.s.mode.Forword?
    ensures SuccessReply(t) <= t.c.data
    ensures var rest := t.c.data[|SuccessReply(t)|..];
            var c := Take(v, t, ClientReads).c;
            c.mode.Forword? && c.signals == [SigConnected] && c.data == [] && !c.crashed
            && c.bindHost == t.s.bindHost && c.bindPort == t.s.bindPort
            && c.host == t.c.host && c.port == t.c.port && c.closed == t.c.closed
            && (if v.Written? then c.lost == rest && c.given == [] else c.given == rest && c.lost == [])
            && rest + Flat(t.down) == t.downPosted
  {
    var r := SuccessReply(t);
    var rest := t.c.data[|r|..];
    assert t.c.data == r + rest;
    CancelFront(r, rest, Flat(t.down), t.downPosted);
    ReplyAccepted(v, t.c, t.s.bindHost, t.s.bindPort, rest);
  }

  /** What the client connector makes of a success reply with `rest` behind it. */
  lemma ReplyAccepted(v: Variant, c: Client, host: seq<byte>, p: port, rest: seq<byte>)
    requires c.buffer == [] && c.data == EncodeReply(0, host, p) + rest && BindText(host)
    requires c.lost == [] && c.given == []
    ensures OnConnectionReply(v, c)
         == c.(bindHost := host, bindPort := p, mode := Forword, buffer := [], data := [],
               signals := c.signals + [SigConnected], lost := if v.Written? then rest else [],
               given := if v.Written? then [] else rest)
  {
    ReplyRoundTrip(v, host, p, rest);
    assert [] + c.data == c.data;
    assert [] + rest == rest;
  }

  lemma CancelFront(r: seq<byte>, rest: seq<byte>, tail: seq<byte>, all: seq<byte>)
    requires r + rest + tail == r + all
    ensures rest + tail == all
  {
    assert (r + rest + tail)[|r|..] == rest + tail;
    assert (r + all)[|r|..] == all;
  }

  lemma TargetConnectsInv(v: Variant, t: Tunnel, host: seq<byte>, p: port)
    requires Inv(v, t) && Enabled(t, TargetConnects(host, p))
    ensures Inv(v, Take(v, t, TargetConnects(host, p)))
  {
    var reply := EncodeReply(0, host, p);
    ShortFragments(v, reply);
    assert [] + [reply] == [reply];
    var only := [reply];
    assert only[1..] == [];
    assert t.s.posted == [];
  }

  /** Before the connection the target's failure becomes the one message on the channel. */
  lemma FailureSent(v: Variant, t: Tunnel, u: Tunnel, f: Fate)
    requires Inv(v, t) && t.s.target.Dialled? && -1 <= Code(f) <= 5 && Code(f) != 0
    requires var reply := EncodeReply(Code(f), [], 0);
             u.c == t.c && u.s.mode.Connect? && u.s.target.Down? && u.s.bindHost == [] && u.downReady == t.downReady
             && u.down == Posted(v, t.down, reply) && u.failure == [f]
             && u.downPosted == t.downPosted && u.targetSent == t.targetSent
    ensures DownStream(v, u)
  {
    var reply := EncodeReply(Code(f), [], 0);
    ShortFragments(v, reply);
    assert [] + [reply] == [reply];
  }

  lemma TargetFailsInv(v: Variant, t: Tunnel, err: int)
    requires Inv(v, t) && Enabled(t, TargetFails(err))
    ensures Inv(v, Take(v, t, TargetFails(err)))
  {
    var u := Take(v, t, TargetFails(err));
    if t.s.mode.Connect? {
      assert t.s.bindHost == [] && t.s.bindPort == 0;
      assert EncodeReply(err, t.s.bindHost, t.s.bindPort) == EncodeReply(err, [], 0);
      FailureSent(v, t, u, Reported(err));
    }
    FailShape(v, t, u);
  }

  lemma TargetDisconnectsInv(v: Variant, t: Tunnel)
    requires Inv(v, t) && Enabled(t, TargetDisconnects)
    ensures Inv(v, Take(v, t, TargetDisconnects))
  {
    var u := Take(v, t, TargetDisconnects);
    if t.s.mode.Connect? {
      assert t.s.bindHost == [] && t.s.bindPort == 0;
      FailureSent(v, t, u, Gone);
    }
    FailShape(v, t, u);
  }

  /** A failed target keeps the rest of the invariant. */
  lemma FailShape(v: Variant, t: Tunnel, u: Tunnel)
    requires Inv(v, t) && (t.s.target.Dialled? || t.s.target.Up?)
    requires u.c == t.c && u.isOpen == t.isOpen && u.up == t.up && u.upReady == t.upReady
    requires u.localSent == t.localSent && u.upPosted == t.upPosted && u.targetSent == t.targetSent
    requires u.s == t.s.(target := Down, posted := u.s.posted, signals := u.s.signals)
    requires |u.gone| == 1 && u.s.signals == t.s.signals + [ReportOf(u.gone[0])]
    requires if t.s.mode.Connect? then |u.failure| == 1 && |u.s.posted| == |t.s.posted| + 1
             else u.failure == t.failure && u.s.posted == t.s.posted
    ensures HostFits(v, u) && ServerShape(u) && Reports(u) && RequestPhase(u) && UpStream(u)
  {
  }

  lemma TargetSendsInv(v: Variant, t: Tunnel, d: seq<byte>)
    requires Inv(v, t) && Enabled(t, TargetSends(d))
    ensures Inv(v, Take(v, t, TargetSends(d)))
  {
    assert (t.s.posted + [d])[1..] == t.s.posted[1..] + [d];
    FlatPush(t.s.posted[1..], d);
    TargetSendsDown(v, t, d);
  }

  lemma Rebracket(a: seq<byte>, b: seq<byte>, c: seq<byte>)
    ensures a + (b + c) == a + b + c
  {
  }

  lemma TargetSendsDown(v: Variant, t: Tunnel, d: seq<byte>)
    requires Inv(v, t) && Enabled(t, TargetSends(d))
    ensures DownStream(v, Take(v, t, TargetSends(d)))
  {
    var f := Fragments(v, d);
    FlatAppend(t.down, f);
    if t.c.mode.Forword? {
      Rebracket(t.c.lost + t.c.given + t.c.data, Flat(t.down), Flat(f));
    } else if t.c.data == [] && t.downReady == 0 && t.down != [] && t.down[0] == SuccessReply(t)
              && Flat(t.down[1..]) == t.downPosted {
      assert (t.down + f)[1..] == t.down[1..] + f;
      FlatAppend(t.down[1..], f);
    } else {
      Rebracket(t.c.data, Flat(t.down), Flat(f));
      Rebracket(SuccessReply(t), t.downPosted, Flat(f));
    }
  }

  lemma LocalWritesInv(v: Variant, t: Tunnel, d: seq<byte>)
    requires Inv(v, t) && Enabled(t, LocalWrites(d))
    ensures Inv(v, Take(v, t, LocalWrites(d)))
  {
    var f := Fragments(v, d);
    FlatAppend(t.up, f);
    assert t.s.toTarget + t.s.data + (Flat(t.up) + Flat(f)) == t.s.toTarget + t.s.data + Flat(t.up) + Flat(f);
  }

  lemma TakeInv(v: Variant, t: Tunnel, a: Step)
    requires Inv(v, t)
    ensures Inv(v, Take(v, t, a))
  {
    if Enabled(t, a) {
      match a
      case Open => OpenInv(v, t);
      case UpArrives => UpArrivesInv(v, t);
      case ServerReads => ServerReadsInv(v, t);
      case DownArrives => DownArrivesInv(v, t);
      case ClientReads => ClientReadsInv(v, t);
      case TargetConnects(host, p) => TargetConnectsInv(v, t, host, p);
      case TargetFails(err) => TargetFailsInv(v, t, err);
      case TargetDisconnects => TargetDisconnectsInv(v, t);
      case TargetSends(d) => TargetSendsInv(v, t, d);
      case LocalWrites(d) => LocalWritesInv(v, t, d);
      case LocalCloses =>
    }
  }

  lemma {:induction false} RunInv(v: Variant, t: Tunnel, steps: seq<Step>)
    requires Inv(v, t)
    ensures Inv(v, Run(v, t, steps))
    decreases |steps|
  {
    if steps == [] {
    } else {
      TakeInv(v, t, steps[0]);
      RunInv(v, Take(v, t, steps[0]), steps[1..]);
    }
  }

  // ---------------------------------------------------------------- the results

  /** A step at which fragmentation is faithful: always as intended, for blocks of one message as written. */
  predicate Faithful(v: Variant, a: Step) {
    v.Written? ==> (a.TargetSends? ==> |a.data| <= MAX_MESSAGE) && (a.LocalWrites? ==> |a.data| <= MAX_MESSAGE)
  }

  predicate FaithfulSteps(v: Variant, steps: seq<Step>) {
    forall i :: 0 <= i < |steps| ==> Faithful(v, steps[i])
  }

  predicate PostedAsSent(t: Tunnel) {
    t.upPosted == t.localSent && t.downPosted == t.targetSent
  }

  lemma FaithfulBlock(v: Variant, d: seq<byte>)
    requires v.Written? ==> |d| <= MAX_MESSAGE
    ensures Flat(Fragments(v, d)) == d
  {
    if v.Written? {
      WrittenFragmentsExact(d);
    } else {
      PiecesReassemble(d, |d|);
    }
  }

  lemma PostedTake(v: Variant, t: Tunnel, a: Step)
    requires PostedAsSent(t) && Faithful(v, a)
    ensures PostedAsSent(Take(v, t, a))
  {
    match a
    case TargetSends(d) => FaithfulBlock(v, d);
    case LocalWrites(d) => FaithfulBlock(v, d);
    case _ =>
  }

  lemma {:induction false} PostedRun(v: Variant, t: Tunnel, steps: seq<Step>)
    requires PostedAsSent(t) && FaithfulSteps(v, steps)
    ensures PostedAsSent(Run(v, t, steps))
    decreases |steps|
  {
    if steps == [] {
    } else {
      PostedTake(v, t, steps[0]);
      PostedRun(v, Take(v, t, steps[0]), steps[1..]);
    }
  }

  /** In every run what the target is given is a prefix of what the session wrote, and what the session is given is
      a prefix of what the target sent; no handshake octet is among them. */
  lemma TunnelTransparency(host: seq<byte>, p: port, steps: seq<Step>)
    requires |host| <= 255 && 0 !in host
    ensures var t := Run(Intended, Start(host, p), steps);
            t.s.toTarget <= t.localSent && t.c.given <= t.targetSent
  {
    StartInv(Intended, host, p);
    RunInv(Intended, Start(host, p), steps);
    PostedRun(Intended, Start(host, p), steps);
    var t := Run(Intended, Start(host, p), steps);
    if t.c.mode.Forword? {
      assert t.c.lost + t.c.given + t.c.data + Flat(t.down) == t.c.given + (t.c.data + Flat(t.down));
    }
  }

  /** As written, with hosts of at most 127 octets and blocks of one message: the only octets missing are those that
      stood behind the reply when it was read, so once the channel is drained the session has got everything the
      target sent exactly when there were none. */
  lemma WrittenTransparency(host: seq<byte>, p: port, steps: seq<Step>)
    requires |host| <= 127 && 0 !in host && FaithfulSteps(Written, steps)
    ensures var t := Run(Written, Start(host, p), steps);
            t.s.toTarget <= t.localSent && t.c.lost + t.c.given <= t.targetSent
            && (t.c.mode.Forword? && t.c.data == [] && Flat(t.down) == [] ==>
                  (t.c.given == t.targetSent <==> t.c.lost == []))
  {
    StartInv(Written, host, p);
    RunInv(Written, Start(host, p), steps);
    PostedRun(Written, Start(host, p), steps);
    var t := Run(Written, Start(host, p), steps);
    if t.c.mode.Forword? {
      assert t.c.lost + t.c.given + t.c.data + Flat(t.down) == t.c.lost + t.c.given + (t.c.data + Flat(t.down));
      if t.c.lost == [] {
        assert [] + t.c.given == t.c.given;
      }
    }
  }

  /** Octets are lost exactly when something is read together with the reply. */
  lemma LostWithReply(t: Tunnel)
    requires Inv(Written, t) && Enabled(t, ClientReads) && t.c.mode.Connect? && t.s.mode.Forword?
    ensures Take(Written, t, ClientReads).c.lost == [] <==> t.c.data == SuccessReply(t)
  {
    SuccessHeard(Written, t);
  }

  /** A run that shows the loss: the reply and the target's first block arrive before the client reads. */
  lemma CoalescedReplyLoses(t: Tunnel, d: seq<byte>)
    requires Inv(Written, t) && t.c.mode.Connect? && t.s.mode.Forword? && !t.c.closed
    requires t.c.data == [] && t.c.signals == [] && t.downReady == 0 && t.down == [SuccessReply(t), d] && d != []
    ensures var u := Run(Written, t, [DownArrives, DownArrives, ClientReads]);
            u.c.lost == d && u.c.given == [] && u.c.data == [] && u.down == [] && u.targetSent == t.targetSent
  {
    var steps := [DownArrives, DownArrives, ClientReads];
    var t1 := Take(Written, t, DownArrives);
    assert steps[1..] == [DownArrives, ClientReads];
    assert [] + SuccessReply(t) == SuccessReply(t);
    assert t.down[1..] == [d];
    var t2 := Take(Written, t1, DownArrives);
    assert steps[1..][1..] == [ClientReads];
    assert t1.down[1..] == [];
    var t3 := Take(Written, t2, ClientReads);
    TakeInv(Written, t, DownArrives);
    TakeInv(Written, t1, DownArrives);
    assert t2.c.data == SuccessReply(t) + d;
    SuccessHeard(Written, t2);
    assert steps[1..][1..][1..] == [];
    assert Run(Written, t, steps) == Run(Written, t1, [DownArrives, ClientReads]);
    assert Run(Written, t1, [DownArrives, ClientReads]) == Run(Written, t2, [ClientReads]);
  }

  /** Whenever the client connector is in FORWORD the server reached it before, exactly one dial was made, for the
      host and port given to Connect, and both sides hold the same bind address and port. */
  lemma Agreement(v: Variant, host: seq<byte>, p: port, steps: seq<Step>)
    requires |host| <= MaxHost(v) && 0 !in host
    ensures var t := Run(v, Start(host, p), steps);
            t.c.mode.Forword? ==>
              t.s.mode.Forword? && t.s.dials == [Endpoint(host, p)]
              && t.c.bindHost == t.s.bindHost && t.c.bindPort == t.s.bindPort && t.c.signals == [SigConnected]
  {
    StartInv(v, host, p);
    RunInv(v, Start(host, p), steps);
    HostStays(v, Start(host, p), steps);
  }

  lemma TakeHost(v: Variant, t: Tunnel, a: Step)
    ensures Take(v, t, a).c.host == t.c.host && Take(v, t, a).c.port == t.c.port
  {
    if a.ClientReads? && t.c.mode.Connect? {
      assert OnConnectionReply(v, t.c).host == t.c.host && OnConnectionReply(v, t.c).port == t.c.port;
    }
  }

  lemma {:induction false} HostStays(v: Variant, t: Tunnel, steps: seq<Step>)
    ensures Run(v, t, steps).c.host == t.c.host && Run(v, t, steps).c.port == t.c.port
    decreases |steps|
  {
    if steps == [] {
    } else {
      TakeHost(v, t, steps[0]);
      HostStays(v, Take(v, t, steps[0]), steps[1..]);
    }
  }

  /** In every run at most one dial is made and it is for the requested target; the second parse that the code
      asserts against never happens, and neither side crashes. */
  lemma NoDoubleDial(v: Variant, host: seq<byte>, p: port, steps: seq<Step>)
    requires |host| <= MaxHost(v) && 0 !in host
    ensures var t := Run(v, Start(host, p), steps);
            !t.s.trapped && !t.s.crashed && !t.c.crashed
            && (t.s.dials == [] || t.s.dials == [Endpoint(host, p)])
  {
    StartInv(v, host, p);
    RunInv(v, Start(host, p), steps);
    HostStays(v, Start(host, p), steps);
  }

  /** The server posts its success reply first and once: everything behind it is what the target sent. */
  lemma ReplyFirstAndOnce(v: Variant, host: seq<byte>, p: port, steps: seq<Step>)
    requires |host| <= MaxHost(v) && 0 !in host
    ensures var t := Run(v, Start(host, p), steps);
            if t.s.mode.Forword? then
              t.s.posted != [] && t.s.posted[0] == EncodeReply(0, t.s.bindHost, t.s.bindPort)
              && Flat(t.s.posted[1..]) == t.targetSent
            else |t.s.posted| <= 1 && t.targetSent == []
  {
    StartInv(v, host, p);
    RunInv(v, Start(host, p), steps);
  }

  /** What the client connector signals is at most one thing: the connection, or the error the target reported. */
  lemma SignalsOnce(v: Variant, host: seq<byte>, p: port, steps: seq<Step>)
    requires |host| <= MaxHost(v) && 0 !in host
    ensures var t := Run(v, Start(host, p), steps);
            t.c.signals == []
            || (t.c.signals == [SigConnected] && t.failure == [] && t.s.mode.Forword?)
            || (|t.failure| == 1 && t.c.signals == [SigError(Code(t.failure[0]))] && t.s.dials == [Endpoint(host, p)])
  {
    StartInv(v, host, p);
    RunInv(v, Start(host, p), steps);
    HostStays(v, Start(host, p), steps);
  }

  /** Over every run the server connector, which the registry listens to, signals nothing while its target is there,
      and then exactly how the target went: an error with its code, or a disconnect. */
  lemma ServerReportsTarget(v: Variant, host: seq<byte>, p: port, steps: seq<Step>)
    requires |host| <= MaxHost(v) && 0 !in host
    ensures var t := Run(v, Start(host, p), steps);
            if t.gone == [] then t.s.signals == []
            else |t.gone| == 1 && t.s.signals == [if t.gone[0].Reported? then Failure(t.gone[0].err) else Disconnect]
  {
    StartInv(v, host, p);
    RunInv(v, Start(host, p), steps);
  }

  // ---------------------------------------------------------------- as written, with a host that is too long

  /** The client connector has heard, read and written nothing. */
  predicate Untouched(t: Tunnel) {
    var c := t.c;
    c.mode.Connect? && c.signals == [] && c.buffer == [] && c.data == [] && c.given == [] && c.lost == []
    && !c.crashed && t.down == [] && t.downReady == 0
    && t.localSent == [] && t.upPosted == [] && t.targetSent == [] && t.downPosted == []
  }

  /** The request is not sent, on the channel, in m_data, or the server has crashed on it. */
  predicate Stuck(t: Tunnel) {
    128 <= |t.c.host| <= 255 && Untouched(t)
    && t.s.target.NoTarget? && t.s.mode.Connect? && t.s.dials == [] && t.s.posted == [] && t.s.toTarget == []
    && !t.s.trapped && t.failure == []
    && if t.s.crashed then t.isOpen && t.up == []
       else
         t.s.buffer == []
         && if !t.isOpen then t.up == [] && t.s.data == [] && t.upReady == 0
            else (t.up == [Request(t)] && t.s.data == [] && t.upReady == 0)
                 || (t.up == [] && t.s.data == Request(t))
  }

  lemma TakeStuck(t: Tunnel, a: Step)
    requires Stuck(t)
    ensures Stuck(Take(Written, t, a)) && PostedAsSent(Take(Written, t, a))
    ensures !a.LocalCloses? ==> Take(Written, t, a).c.closed == t.c.closed
  {
    if Enabled(t, a) {
      match a
      case Open =>
        ShortFragments(Written, Request(t));
        assert [] + [Request(t)] == [Request(t)];
      case UpArrives =>
        var only := [Request(t)];
        assert only[1..] == [];
        assert [] + Request(t) == Request(t);
      case ServerReads => ServerCrashes(t);
      case LocalCloses =>
      case _ =>
    }
  }

  lemma ServerCrashes(t: Tunnel)
    requires Stuck(t) && Enabled(t, ServerReads)
    ensures ServerReadyRead(Written, t.s) == t.s.(buffer := Request(t), data := [], crashed := true)
  {
    assert [] + t.s.data == Request(t);
    assert Request(t)[4] == |t.c.host|;
  }

  lemma {:induction false} RunStuck(t: Tunnel, steps: seq<Step>)
    requires Stuck(t)
    ensures Stuck(Run(Written, t, steps))
    decreases |steps|
  {
    if steps == [] {
    } else {
      TakeStuck(t, steps[0]);
      RunStuck(Take(Written, t, steps[0]), steps[1..]);
    }
  }

  /** As written, over every run with a host of 128 to 255 octets no target is dialled, nothing is signalled, and
      nothing is given to either end. */
  lemma LongHostNeverDials(host: seq<byte>, p: port, steps: seq<Step>)
    requires 128 <= |host| <= 255
    ensures var t := Run(Written, Start(host, p), steps);
            t.s.dials == [] && t.c.signals == [] && t.s.toTarget == [] && t.c.given == []
  {
    RunStuck(Start(host, p), steps);
  }
}
