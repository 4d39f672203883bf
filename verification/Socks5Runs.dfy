/** What the invariant of a session says about its runs. */
module Socks5Runs {
  import opened Bytes
  import opened PeerConnector
  import opened Readings
  import opened Socks5Frames
  import opened Socks5Session
  import opened Socks5Chunking
  import opened Socks5Safety

  /** In every state of every run the octets read are the version, the frames taken, the buffer and the octets
      forwarded, in this order; nothing is invented, repeated or reordered. */
  lemma ByteConservation(v: Variant, cfg: Config, es: seq<Event>)
    ensures var s := Run(v, cfg, Fresh(), es);
            s.received == [VERSION] + Flat(s.consumed) + s.buf + s.forwarded
  {
    FreshInv(v, cfg);
    RunInv(v, cfg, Fresh(), es);
  }

  /** In every run the output keeps the grammar, a failure leaves the session closed, and at most one dial is made. */
  lemma OutputGrammar(v: Variant, cfg: Config, es: seq<Event>)
    ensures var s := Run(v, cfg, Fresh(), es);
            !PhaseOf(s.sent).Bad? && (PhaseOf(s.sent).Ended? ==> !s.open) && |s.dials| <= 1
  {
    FreshInv(v, cfg);
    RunInv(v, cfg, Fresh(), es);
  }

  /** Whenever a dial is pending, the whole request it was made for is at the front of the buffer, so the reply
      repeats its version octet and the removal takes exactly that frame. */
  lemma ReplyTimeBuffer(v: Variant, cfg: Config, es: seq<Event>)
    ensures var s := Run(v, cfg, Fresh(), es);
            Live(s) && s.peer.Dialling? ==>
              s.buf != [] && s.buf[0] == VERSION && 4 <= s.targetLen <= |s.buf|
              && RequestFrame(s.buf[..s.targetLen], s.target) && s.dials == [s.target]
  {
    FreshInv(v, cfg);
    RunInv(v, cfg, Fresh(), es);
  }

  /** As intended, the peer is given exactly the client's stream behind the opening frames and the request. */
  lemma ForwardedStream(cfg: Config, es: seq<Event>)
    ensures var s := Run(Intended, cfg, Fresh(), es);
            Live(s) && s.status.Forward? ==>
              s.received == [VERSION] + Flat(s.consumed) + s.forwarded
              && |s.consumed| > 0 && |s.dials| == 1
              && Opening(Intended, cfg, s.chosen, s.consumed[..|s.consumed| - 1])
              && RequestFrame(s.consumed[|s.consumed| - 1], s.dials[0])
  {
    FreshInv(Intended, cfg);
    RunInv(Intended, cfg, Fresh(), es);
    ForwardState(cfg, Run(Intended, cfg, Fresh(), es));
  }

  lemma ForwardState(cfg: Config, s: Session)
    requires Inv(Intended, cfg, s)
    ensures Live(s) && s.status.Forward? ==>
              s.received == [VERSION] + Flat(s.consumed) + s.forwarded
              && |s.consumed| > 0 && |s.dials| == 1
              && Opening(Intended, cfg, s.chosen, s.consumed[..|s.consumed| - 1])
              && RequestFrame(s.consumed[|s.consumed| - 1], s.dials[0])
  {
    if Live(s) && s.status.Forward? {
      NothingBetween([VERSION] + Flat(s.consumed), s.buf, s.forwarded);
    }
  }

  lemma {:induction false} WrittenForwardRun(cfg: Config, s: Session, es: seq<Event>)
    requires s.status.Forward? && !s.peer.Dialling?
    ensures Run(Written, cfg, s, es).buf == s.buf
    ensures Run(Written, cfg, s, es).consumed == s.consumed
    decreases |es|
  {
    if es == [] {
    } else {
      WrittenForwardRun(cfg, Step(Written, cfg, s, es[0]), es[1..]);
    }
  }

  lemma ConnectedWritten(cfg: Config, s: Session, a: HostAddress, p: port)
    requires Inv(Written, cfg, s) && Live(s) && s.peer.Dialling?
    ensures var c := Step(Written, cfg, s, Connected(a, p));
            c.status.Forward? && c.peer.Linked? && c.buf == s.buf[s.targetLen..]
  {
    var u := ProcessReply(s, SUCCEEDED, a, p).(status := Forward, peer := Linked);
    RemoveForward(Written, cfg, u, s.targetLen);
  }

  /** As written, octets that wait behind the request when the dial succeeds stay in the buffer for good, and in
      every later state the peer has got exactly the stream behind the request if and only if there were none. */
  lemma CoalescedBytesAreStuck(cfg: Config, s: Session, a: HostAddress, p: port, es: seq<Event>)
    requires Inv(Written, cfg, s) && Live(s) && s.peer.Dialling?
    ensures var t := Run(Written, cfg, Step(Written, cfg, s, Connected(a, p)), es);
            t.buf == s.buf[s.targetLen..]
            && t.received == [VERSION] + Flat(t.consumed) + t.buf + t.forwarded
            && (t.received == [VERSION] + Flat(t.consumed) + t.forwarded <==> |s.buf| == s.targetLen)
  {
    var c := Step(Written, cfg, s, Connected(a, p));
    ConnectedWritten(cfg, s, a, p);
    StepInv(Written, cfg, s, Connected(a, p));
    WrittenForwardRun(cfg, c, es);
    RunInv(Written, cfg, c, es);
    var t := Run(Written, cfg, c, es);
    NothingBetween([VERSION] + Flat(t.consumed), t.buf, t.forwarded);
  }

  /** That happens: for every client that is not asked to log in and every octets it sends right behind its request
      in the same read. */
  lemma BytesGetStuck(cfg: Config, ms: seq<byte>, reserved: byte, to: Address, at: port, rest: seq<byte>,
                      a: HostAddress, p: port)
    requires |ms| < 128 && Encodable(to) && HostText(to) != [] && Select(cfg.methods, ms) == NO_AUTHENTICATION
    ensures var all := EncodeMethods(ms) + (EncodeRequest(CONNECT, reserved, to, at) + rest);
            var s := Run(Written, cfg, Fresh(), [Data(all), Connected(a, p)]);
            Live(s) && s.status.Forward? && s.dials == [Endpoint(HostText(to), at)]
            && s.buf == rest && s.forwarded == []
  {
    var tail := EncodeRequest(CONNECT, reserved, to, at) + rest;
    var all := EncodeMethods(ms) + tail;
    MethodsRoundTrip(Written, ms, tail);
    RequestRoundTrip(CONNECT, reserved, to, at, rest);
    var m, r := ParseMethods(Written, all).value, ParseRequest(tail).value;
    ReadDials(cfg, all, m, r);
    var s := Read(Written, cfg, Fresh(), all);
    var u := ProcessReply(s, SUCCEEDED, a, p).(status := Forward, peer := Linked);
    RemoveForward(Written, cfg, u, s.targetLen);
    RunTwo(cfg, Data(all), Connected(a, p));
  }

  lemma RunTwo(cfg: Config, e: Event, f: Event)
    ensures Run(Written, cfg, Fresh(), [e, f]) == Step(Written, cfg, Step(Written, cfg, Fresh(), e), f)
  {
    var both, last := [e, f], [f];
    assert both[1..] == last && last[1..] == [];
    var s := Step(Written, cfg, Fresh(), e);
    assert Run(Written, cfg, s, last) == Run(Written, cfg, Step(Written, cfg, s, f), []);
  }

  lemma NothingBetween(front: seq<byte>, mid: seq<byte>, back: seq<byte>)
    ensures front + mid + back == front + back <==> mid == []
  {
    if mid == [] {
      assert front + mid == front;
    } else {
      assert |front + mid + back| != |front + back|;
    }
  }
}
