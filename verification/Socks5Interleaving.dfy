/** What a session has forwarded does not depend on how reads, the connection and peer data interleave. */
module Socks5Interleaving {
  import opened Bytes
  import opened PeerConnector
  import opened Readings
  import opened Socks5Frames
  import opened Socks5Session
  import opened Socks5Safety

  lemma MethodsFirst(v: Variant, cfg: Config, chosen: byte, frame: seq<byte>, tail: seq<byte>)
    requires MethodFrame(v, cfg, chosen, frame)
    ensures var m := ParseMethods(v, frame + tail);
            m.Some? && m.value.len == |frame| && Select(cfg.methods, m.value.offered) == chosen
  {
    MethodsExtend(v, frame, tail);
  }

  lemma LoginFirst(cfg: Config, frame: seq<byte>, tail: seq<byte>)
    requires LoginFrame(cfg, frame)
    ensures var l := ParseLogin(frame + tail);
            l.Some? && l.value.Login? && l.value.len == |frame|
  {
    LoginExtend(frame, tail);
  }

  lemma RequestFirst(frame: seq<byte>, to: Endpoint, tail: seq<byte>)
    requires RequestFrame(frame, to)
    ensures var r := ParseRequest(frame + tail);
            r.Some? && r.value.Target? && r.value.len == |frame|
            && to == Endpoint(HostText(r.value.address), r.value.port)
  {
    RequestExtend(frame, tail);
  }

  lemma SameSplit(a: seq<byte>, b: seq<byte>, c: seq<byte>, d: seq<byte>)
    requires a + b == c + d && |a| == |c|
    ensures a == c && b == d
  {
    assert a == (a + b)[..|a|] && c == (c + d)[..|c|];
    assert b == (a + b)[|a|..] && d == (c + d)[|c|..];
  }

  /** The frames a forwarding session has taken: its opening and the request for the target it dialled. */
  predicate Taken(v: Variant, cfg: Config, chosen: byte, frames: seq<seq<byte>>, to: Endpoint) {
    |frames| > 0 && Opening(v, cfg, chosen, frames[..|frames| - 1]) && RequestFrame(frames[|frames| - 1], to)
  }

  lemma FlatFirst(frames: seq<seq<byte>>, tail: seq<byte>)
    requires frames != []
    ensures Flat(frames) + tail == frames[0] + (Flat(frames[1..]) + tail)
  {
  }

  /** The same octets are cut into the same frames. */
  lemma FramesDetermined(v: Variant, cfg: Config, c: byte, c': byte, fs: seq<seq<byte>>, fs': seq<seq<byte>>,
                         to: Endpoint, to': Endpoint, tail: seq<byte>, tail': seq<byte>)
    requires Taken(v, cfg, c, fs, to) && Taken(v, cfg, c', fs', to')
    requires Flat(fs) + tail == Flat(fs') + tail'
    ensures c == c' && fs == fs' && to == to' && tail == tail'
  {
    OfferDetermined(v, cfg, c, c', fs, fs', tail, tail');
    var gs, gs' := fs[1..], fs'[1..];
    if c == USER_PASSWORD {
      LoginDetermined(cfg, gs, gs', tail, tail');
      LastDetermined(gs[1..], gs'[1..], to, to', tail, tail');
      assert gs == [gs[0]] + gs[1..] && gs' == [gs'[0]] + gs'[1..];
    } else {
      LastDetermined(gs, gs', to, to', tail, tail');
    }
    assert fs == [fs[0]] + gs && fs' == [fs'[0]] + gs';
  }

  lemma OfferDetermined(v: Variant, cfg: Config, c: byte, c': byte, fs: seq<seq<byte>>, fs': seq<seq<byte>>,
                        tail: seq<byte>, tail': seq<byte>)
    requires fs != [] && fs' != [] && MethodFrame(v, cfg, c, fs[0]) && MethodFrame(v, cfg, c', fs'[0])
    requires Flat(fs) + tail == Flat(fs') + tail'
    ensures c == c' && fs[0] == fs'[0] && Flat(fs[1..]) + tail == Flat(fs'[1..]) + tail'
  {
    var t, t' := Flat(fs[1..]) + tail, Flat(fs'[1..]) + tail';
    FlatFirst(fs, tail);
    FlatFirst(fs', tail');
    MethodsFirst(v, cfg, c, fs[0], t);
    MethodsFirst(v, cfg, c', fs'[0], t');
    SameSplit(fs[0], t, fs'[0], t');
  }

  lemma LoginDetermined(cfg: Config, fs: seq<seq<byte>>, fs': seq<seq<byte>>, tail: seq<byte>, tail': seq<byte>)
    requires fs != [] && fs' != [] && LoginFrame(cfg, fs[0]) && LoginFrame(cfg, fs'[0])
    requires Flat(fs) + tail == Flat(fs') + tail'
    ensures fs[0] == fs'[0] && Flat(fs[1..]) + tail == Flat(fs'[1..]) + tail'
  {
    var t, t' := Flat(fs[1..]) + tail, Flat(fs'[1..]) + tail';
    FlatFirst(fs, tail);
    FlatFirst(fs', tail');
    LoginFirst(cfg, fs[0], t);
    LoginFirst(cfg, fs'[0], t');
    SameSplit(fs[0], t, fs'[0], t');
  }

  lemma LastDetermined(fs: seq<seq<byte>>, fs': seq<seq<byte>>, to: Endpoint, to': Endpoint,
                       tail: seq<byte>, tail': seq<byte>)
    requires |fs| == |fs'| == 1 && RequestFrame(fs[0], to) && RequestFrame(fs'[0], to')
    requires Flat(fs) + tail == Flat(fs') + tail'
    ensures fs == fs' && to == to' && tail == tail'
  {
    assert fs == [fs[0]] && fs' == [fs'[0]];
    FlatOne(fs[0]);
    FlatOne(fs'[0]);
    RequestFirst(fs[0], to, tail);
    RequestFirst(fs'[0], to', tail');
    SameSplit(fs[0], tail, fs'[0], tail');
  }

  lemma ForwardTaken(v: Variant, cfg: Config, s: Session)
    requires Inv(v, cfg, s) && Live(s) && s.status.Forward?
    ensures |s.dials| == 1 && Taken(v, cfg, s.chosen, s.consumed, s.dials[0])
    ensures v.Intended? ==> s.buf == []
  {
  }

  lemma Regrouped(s: Session)
    requires Conserved(s)
    ensures s.received == [VERSION] + (Flat(s.consumed) + (s.buf + s.forwarded))
  {
    assert [VERSION] + Flat(s.consumed) + s.buf + s.forwarded == [VERSION] + (Flat(s.consumed) + (s.buf + s.forwarded));
  }

  /** Two runs of any events, that have received the same octets from their clients and both forward, have taken the
      same frames and dialled the same target; as intended they have forwarded the same octets. As written that is so
      up to what is stuck in the buffer. */
  lemma InterleavingIndependence(v: Variant, cfg: Config, es: seq<Event>, es': seq<Event>)
    requires var s, s' := Run(v, cfg, Fresh(), es), Run(v, cfg, Fresh(), es');
             s.received == s'.received
             && Live(s) && s.status.Forward? && Live(s') && s'.status.Forward?
    ensures var s, s' := Run(v, cfg, Fresh(), es), Run(v, cfg, Fresh(), es');
            s.chosen == s'.chosen && s.consumed == s'.consumed && s.dials == s'.dials
            && s.buf + s.forwarded == s'.buf + s'.forwarded
            && (v.Intended? ==> s.forwarded == s'.forwarded)
  {
    var s, s' := Run(v, cfg, Fresh(), es), Run(v, cfg, Fresh(), es');
    FreshInv(v, cfg);
    RunInv(v, cfg, Fresh(), es);
    RunInv(v, cfg, Fresh(), es');
    ForwardTaken(v, cfg, s);
    ForwardTaken(v, cfg, s');
    Regrouped(s);
    Regrouped(s');
    SameSplit([VERSION], Flat(s.consumed) + (s.buf + s.forwarded), [VERSION], Flat(s'.consumed) + (s'.buf + s'.forwarded));
    FramesDetermined(v, cfg, s.chosen, s'.chosen, s.consumed, s'.consumed, s.dials[0], s'.dials[0],
                     s.buf + s.forwarded, s'.buf + s'.forwarded);
    if v.Intended? {
      assert [] + s.forwarded == s.forwarded && [] + s'.forwarded == s'.forwarded;
    }
  }
}
