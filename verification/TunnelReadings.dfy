/** When the written tunnel goes through the intended states. */
module TunnelReadings {
  import opened Bytes
  import opened PeerConnector
  import opened Readings
  import opened DataChannel
  import opened TunnelCodec
  import opened TunnelSides
  import opened Tunnel

  /** A step at which the written code does what is intended: writes fit one message, and the success reply is read
      alone. */
  predicate Smooth(t: Tunnel, a: Step) {
    match a
    case TargetSends(d) => |d| <= MAX_MESSAGE
    case LocalWrites(d) => |d| <= MAX_MESSAGE
    case ClientReads => t.c.mode.Connect? && t.s.mode.Forword? ==> t.c.data == SuccessReply(t)
    case _ => true
  }

  lemma TakeAgrees(t: Tunnel, a: Step)
    requires Inv(Written, t) && Smooth(t, a)
    ensures Take(Written, t, a) == Take(Intended, t, a)
  {
    if Enabled(t, a) {
      match a
      case Open => SameFragments(Request(t));
      case ServerReads => ServerReadsAgrees(t);
      case ClientReads => ClientReadsAgrees(t);
      case TargetConnects(host, p) => SameFragments(EncodeReply(0, host, p));
      case TargetFails(err) =>
        if t.s.mode.Connect? {
          SameFragments(EncodeReply(err, t.s.bindHost, t.s.bindPort));
        }
      case TargetDisconnects =>
        if t.s.mode.Connect? {
          SameFragments(EncodeReply(ERROR_NOT_ALLOWED, t.s.bindHost, t.s.bindPort));
        }
      case TargetSends(d) => SameFragments(d);
      case LocalWrites(d) => SameFragments(d);
      case _ =>
    }
  }

  lemma SameFragments(block: seq<byte>)
    requires |block| <= MAX_MESSAGE
    ensures Fragments(Written, block) == Fragments(Intended, block)
  {
    ShortFragments(Written, block);
    ShortFragments(Intended, block);
  }

  lemma ServerReadsAgrees(t: Tunnel)
    requires Inv(Written, t) && Enabled(t, ServerReads)
    ensures ServerReadyRead(Written, t.s) == ServerReadyRead(Intended, t.s)
  {
    if t.s.target.NoTarget? {
      assert [] + t.s.data == Request(t) == Request(t) + [];
      RequestRoundTrip(Written, t.c.host, t.c.port, []);
      RequestRoundTrip(Intended, t.c.host, t.c.port, []);
    }
  }

  lemma ClientReadsAgrees(t: Tunnel)
    requires Inv(Written, t) && Enabled(t, ClientReads) && Smooth(t, ClientReads)
    ensures ClientReadyRead(Written, t.c) == ClientReadyRead(Intended, t.c)
  {
    if t.c.mode.Connect? {
      if t.s.mode.Forword? {
        SuccessAgrees(t);
      } else {
        var reply := EncodeReply(Code(t.failure[0]), [], 0);
        assert t.c.data == reply;
        assert [] + t.c.data == reply == reply + [];
        ErrorRoundTrip(Written, Code(t.failure[0]), [], 0, []);
        ErrorRoundTrip(Intended, Code(t.failure[0]), [], 0, []);
      }
    }
  }

  lemma SuccessAgrees(t: Tunnel)
    requires Inv(Written, t) && t.c.mode.Connect? && t.s.mode.Forword? && t.c.data == SuccessReply(t)
    ensures OnConnectionReply(Written, t.c) == OnConnectionReply(Intended, t.c)
  {
    var r := SuccessReply(t);
    assert t.c.signals == [] && t.c.buffer == [];
    assert t.c.buffer + t.c.data == r == r + [];
    ReplyRoundTrip(Written, t.s.bindHost, t.s.bindPort, []);
    ReplyRoundTrip(Intended, t.s.bindHost, t.s.bindPort, []);
    NothingBehind(t.c, r, t.s.bindHost, t.s.bindPort);
  }

  /** A reply that is read alone leaves nothing to lose. */
  lemma NothingBehind(c: Client, r: seq<byte>, host: seq<byte>, p: port)
    requires c.buffer + c.data == r
    requires DecodeReply(Written, r) == DecodeReply(Intended, r) == Host(host, p, |r|)
    ensures OnConnectionReply(Written, c) == OnConnectionReply(Intended, c)
  {
    assert r[|r|..] == [];
    assert c.lost + [] == c.lost && c.given + [] == c.given;
  }

  /** Every step of the run is smooth in the state where it happens. */
  predicate SmoothRun(t: Tunnel, steps: seq<Step>)
    decreases |steps|
  {
    steps == [] || (Smooth(t, steps[0]) && SmoothRun(Take(Written, t, steps[0]), steps[1..]))
  }

  /** With a host of at most 127 octets, on a smooth run the written code goes through exactly the intended states. */
  lemma {:induction false} RunAgrees(t: Tunnel, steps: seq<Step>)
    requires Inv(Written, t) && SmoothRun(t, steps)
    ensures Run(Written, t, steps) == Run(Intended, t, steps)
    decreases |steps|
  {
    if steps == [] {
    } else {
      TakeAgrees(t, steps[0]);
      TakeInv(Written, t, steps[0]);
      RunAgrees(Take(Written, t, steps[0]), steps[1..]);
    }
  }
}
