/** The session does not depend on how the client's octets are split into reads. */
module Socks5Chunking {
  import opened Bytes
  import opened PeerConnector
  import opened Readings
  import opened Socks5Frames
  import opened Socks5Session

  /** What a session shows: everything while it lives, and afterwards only what left it. */
  function Observe(s: Session): Session {
    if Live(s) then s
    else Fresh().(chosen := s.chosen, open := s.open, halt := s.halt, sent := s.sent,
                  forwarded := s.forwarded, dials := s.dials)
  }

  function ReadAll(v: Variant, cfg: Config, s: Session, chunks: seq<seq<byte>>): Session
    decreases |chunks|
  {
    if chunks == [] then s else ReadAll(v, cfg, Read(v, cfg, s, chunks[0]), chunks[1..])
  }

  predicate NonEmpty(chunks: seq<seq<byte>>) {
    forall i :: 0 <= i < |chunks| ==> chunks[i] != []
  }

  // ---------------------------------------------------------------- where the written code depends on the split

  /** A complete CONNECT request with octets behind it: a later read would re-enter the dial. */
  predicate RequestHazard(rest: seq<byte>) {
    var r := ParseRequest(rest);
    r.Some? && r.value.Target? && r.value.command == CONNECT && HostText(r.value.address) != []
    && |rest| > r.value.len
  }

  /** After NO AUTHENTICATION the request matters; after a refused login, octets behind it do. */
  predicate LoginHazard(cfg: Config, chosen: byte, rest: seq<byte>) {
    if chosen == NO_AUTHENTICATION then RequestHazard(rest)
    else
      chosen == USER_PASSWORD
      && var l := ParseLogin(rest);
         l.Some? && l.value.Login? && !Credentials(cfg, l.value) && |rest| > l.value.len
  }

  /** The streams (after the version octet) on which the written code depends on the split. */
  predicate Hazard(cfg: Config, stream: seq<byte>) {
    stream != []
    && ((128 <= stream[0] < 255 && |stream| > 1)
        || (stream[0] < 128
            && var m := ParseMethods(Written, stream);
               m.Some? && LoginHazard(cfg, Select(cfg.methods, m.value.offered), stream[m.value.len..])))
  }

  lemma RequestHazardGrows(rest: seq<byte>, more: seq<byte>)
    requires RequestHazard(rest)
    ensures RequestHazard(rest + more)
  {
    RequestExtend(rest, more);
  }

  lemma LoginHazardGrows(cfg: Config, chosen: byte, rest: seq<byte>, more: seq<byte>)
    requires LoginHazard(cfg, chosen, rest)
    ensures LoginHazard(cfg, chosen, rest + more)
  {
    if chosen == NO_AUTHENTICATION {
      RequestHazardGrows(rest, more);
    } else {
      LoginExtend(rest, more);
    }
  }

  lemma HazardGrows(cfg: Config, stream: seq<byte>, more: seq<byte>)
    requires Hazard(cfg, stream)
    ensures Hazard(cfg, stream + more)
  {
    if stream[0] < 128 {
      var m := ParseMethods(Written, stream).value;
      MethodsExtend(Written, stream, more);
      assert (stream + more)[m.len..] == stream[m.len..] + more;
      LoginHazardGrows(cfg, Select(cfg.methods, m.offered), stream[m.len..], more);
    }
  }

  // ---------------------------------------------------------------- one read or two

  /** `s` after its buffer has grown by `more` in one read. */
  function Grown(s: Session, more: seq<byte>): Session {
    s.(buf := s.buf + more, received := s.received + more)
  }

  lemma RequestReadTwice(v: Variant, cfg: Config, s: Session, more: seq<byte>)
    requires Live(s) && s.status.ClientRequest? && s.peer.NoPeer?
    requires s.buf != [] && more != []
    requires v.Written? ==> !RequestHazard(s.buf + more)
    ensures Observe(Read(v, cfg, ProcessClientRequest(v, s), more)) == Observe(ProcessClientRequest(v, Grown(s, more)))
  {
    var g := Grown(s, more);
    var p := ParseRequest(s.buf);
    if p.None? {
      assert ProcessClientRequest(v, s) == s;
      ReadRequestStage(v, cfg, s, more);
    } else {
      RequestExtend(s.buf, more);
      var r := p.value;
      if r.OtherVersion? {
        assert ProcessClientRequest(v, s) == s;
        ReadRequestStage(v, cfg, s, more);
      } else if r.Target? {
        TargetReadTwice(v, cfg, s, more, r);
      }
    }
  }

  lemma TargetReadTwice(v: Variant, cfg: Config, s: Session, more: seq<byte>, r: Request)
    requires Live(s) && s.status.ClientRequest? && s.peer.NoPeer?
    requires ParseRequest(s.buf) == Some(r) == ParseRequest(s.buf + more) && r.Target?
    requires r.len <= |s.buf| && more != [] && s.buf != []
    requires v.Written? ==> !RequestHazard(s.buf + more)
    ensures Observe(Read(v, cfg, ProcessClientRequest(v, s), more)) == Observe(ProcessClientRequest(v, Grown(s, more)))
  {
    var t := s.(target := Endpoint(HostText(r.address), r.port), targetLen := r.len);
    if r.command == UDP_ASSOCIATE {
      assert ProcessClientRequest(v, s) == t;
      ReadRequestStage(v, cfg, t, more);
    } else if r.command == CONNECT && t.target.host != [] && v.Intended? {
      var d := t.(peer := Dialling, dials := t.dials + [t.target]);
      assert ProcessClientRequest(v, s) == d;
      ReadRequestStage(v, cfg, d, more);
    }
  }

  lemma ReadRequestStage(v: Variant, cfg: Config, s: Session, more: seq<byte>)
    requires Live(s) && s.status.ClientRequest?
    ensures Read(v, cfg, s, more) == ProcessClientRequest(v, Grown(s, more))
  {
  }

  /** SlotRead with nothing new on the socket is the handler of the stage. */
  lemma StageHandler(v: Variant, cfg: Config, s: Session)
    requires s.open
    ensures s.status.ClientRequest? ==> SlotRead(v, cfg, s, []) == ProcessClientRequest(v, s)
    ensures s.status.Authentication? ==> SlotRead(v, cfg, s, []) == ProcessAuthenticator(v, cfg, s)
  {
    assert s.(buf := s.buf + []) == s;
  }

  /** RemoveCommandBuffer of a frame of `n` octets goes on with the rest, if there is one. */
  lemma RemoveFrame(v: Variant, cfg: Config, s: Session, n: nat)
    requires s.open && n <= |s.buf|
    requires s.status.ClientRequest? || s.status.Authentication?
    ensures var t := Taken(s, n);
            Remove(v, cfg, s, n) == if t.buf == [] then t
                                    else if t.status.ClientRequest? then ProcessClientRequest(v, t)
                                    else ProcessAuthenticator(v, cfg, t)
  {
    var t := Taken(s, n);
    StageHandler(v, cfg, t);
    if n == |s.buf| {
      assert s.buf[..n] == s.buf;
    }
  }

  function Taken(s: Session, n: nat): Session
    requires n <= |s.buf|
  {
    s.(buf := s.buf[n..], consumed := s.consumed + [s.buf[..n]])
  }

  lemma TakenGrown(s: Session, n: nat, more: seq<byte>)
    requires n <= |s.buf|
    ensures Taken(Grown(s, more), n) == Grown(Taken(s, n), more)
  {
    assert (s.buf + more)[n..] == s.buf[n..] + more;
    assert (s.buf + more)[..n] == s.buf[..n];
  }

  lemma LoginReadTwice(v: Variant, cfg: Config, s: Session, more: seq<byte>)
    requires Live(s) && s.status.Authentication? && s.peer.NoPeer?
    requires s.buf != [] && more != []
    requires v.Written? ==> !LoginHazard(cfg, s.chosen, s.buf + more)
    ensures Observe(Read(v, cfg, ProcessAuthenticator(v, cfg, s), more))
         == Observe(ProcessAuthenticator(v, cfg, Grown(s, more)))
  {
    if s.chosen == NO_AUTHENTICATION {
      var t := s.(status := ClientRequest);
      StageHandler(v, cfg, t);
      StageHandler(v, cfg, Grown(t, more));
      RequestReadTwice(v, cfg, t, more);
    } else if s.chosen == USER_PASSWORD && ParseLogin(s.buf).Some? {
      LoginExtend(s.buf, more);
      var l := ParseLogin(s.buf).value;
      if l.Login? {
        LoginFrameReadTwice(v, cfg, s, more, l);
      }
    }
  }

  lemma LoginFrameReadTwice(v: Variant, cfg: Config, s: Session, more: seq<byte>, l: Login)
    requires Live(s) && s.status.Authentication? && s.peer.NoPeer?
    requires s.chosen == USER_PASSWORD && more != []
    requires l.Login? && l.len <= |s.buf|
    requires ParseLogin(s.buf) == Some(l) == ParseLogin(s.buf + more)
    requires v.Written? ==> !LoginHazard(cfg, s.chosen, s.buf + more)
    ensures Observe(Read(v, cfg, ProcessAuthenticator(v, cfg, s), more))
         == Observe(ProcessAuthenticator(v, cfg, Grown(s, more)))
  {
    if Credentials(cfg, l) {
      if v.Intended? {
        var u := Send(s, LoginReply(0)).(status := ClientRequest);
        assert Grown(u, more) == Send(Grown(s, more), LoginReply(0)).(status := ClientRequest);
        assert ProcessAuthenticator(v, cfg, s) == Remove(v, cfg, u, l.len);
        assert ProcessAuthenticator(v, cfg, Grown(s, more)) == Remove(v, cfg, Grown(u, more), l.len);
        RemoveFrame(v, cfg, u, l.len);
        RemoveFrame(v, cfg, Grown(u, more), l.len);
        TakenGrown(u, l.len, more);
        var t := Taken(u, l.len);
        if t.buf == [] {
          assert Grown(t, more).buf == more;
        } else {
          RequestReadTwice(v, cfg, t, more);
        }
      }
    }
  }

  lemma NegotiateReadTwice(v: Variant, cfg: Config, s: Session, more: seq<byte>)
    requires Live(s) && s.status.Negotiate? && s.peer.NoPeer?
    requires s.buf != [] && more != []
    requires v.Written? ==> !Hazard(cfg, s.buf + more)
    ensures Observe(Read(v, cfg, ProcessNegotiate(v, cfg, s), more))
         == Observe(ProcessNegotiate(v, cfg, Grown(s, more)))
  {
    if ParseMethods(v, s.buf).Some? {
      MethodsExtend(v, s.buf, more);
      var m := ParseMethods(v, s.buf).value;
      assert 0 <= m.len <= |s.buf|;
      var chosen := Select(cfg.methods, m.offered);
      var u := Send(s, MethodReply(chosen)).(chosen := chosen, status := Authentication);
      assert Grown(u, more) == Send(Grown(s, more), MethodReply(chosen)).(chosen := chosen, status := Authentication);
      RemoveFrame(v, cfg, u, m.len);
      RemoveFrame(v, cfg, Grown(u, more), m.len);
      TakenGrown(u, m.len, more);
      var t := Taken(u, m.len);
      if t.buf == [] {
        assert Grown(t, more).buf == more;
      } else {
        assert t.buf + more == (s.buf + more)[m.len..];
        LoginReadTwice(v, cfg, t, more);
      }
    }
  }

  /** Two reads after the version octet are as good as one. */
  lemma ReadTwice(v: Variant, cfg: Config, a: seq<byte>, b: seq<byte>)
    requires b != []
    requires v.Written? ==> !Hazard(cfg, a + b)
    ensures Observe(Read(v, cfg, Read(v, cfg, Fresh(), a), b)) == Observe(Read(v, cfg, Fresh(), a + b))
  {
    var f := Fresh();
    assert f.received + [] == f.received;
    if a == [] {
      assert a + b == b;
      assert Read(v, cfg, f, a) == f;
    } else {
      var s := Grown(f, a);
      assert [] + a == a && [] + (a + b) == a + b;
      assert Grown(s, b) == Grown(f, a + b) by {
        assert (f.received + a) + b == f.received + (a + b);
      }
      NegotiateReadTwice(v, cfg, s, b);
    }
  }

  lemma {:induction false} ReadAllAppend(v: Variant, cfg: Config, s: Session, chunks: seq<seq<byte>>, last: seq<byte>)
    ensures ReadAll(v, cfg, s, chunks + [last]) == Read(v, cfg, ReadAll(v, cfg, s, chunks), last)
    decreases |chunks|
  {
    if chunks == [] {
      assert chunks + [last] == [last];
    } else {
      assert (chunks + [last])[1..] == chunks[1..] + [last];
      ReadAllAppend(v, cfg, Read(v, cfg, s, chunks[0]), chunks[1..], last);
    }
  }

  /** Any split of the octets after the version octet shows what a single read shows. */
  lemma {:induction false} ReadsAsOne(v: Variant, cfg: Config, chunks: seq<seq<byte>>)
    requires NonEmpty(chunks)
    requires v.Written? ==> !Hazard(cfg, Flat(chunks))
    ensures Observe(ReadAll(v, cfg, Fresh(), chunks)) == Observe(Read(v, cfg, Fresh(), Flat(chunks)))
    decreases |chunks|
  {
    if chunks == [] {
      assert Fresh().received + [] == Fresh().received;
    } else {
      var n := |chunks| - 1;
      var init, last := chunks[..n], chunks[n];
      assert chunks == init + [last];
      FlatPush(init, last);
      if v.Written? && Hazard(cfg, Flat(init)) {
        HazardGrows(cfg, Flat(init), last);
      }
      ReadsAsOne(v, cfg, init);
      ReadAllAppend(v, cfg, Fresh(), init, last);
      ReadTwice(v, cfg, Flat(init), last);
    }
  }

  // ---------------------------------------------------------------- the version dispatch

  /** What CServerSocks::slotRead makes of a new connection. */
  datatype Service =
    | Refused                       // the socket is closed
    | Ignored                       // the version is switched off: nobody reads the socket any more
    | Socks4                        // not part of this model
    | Socks5(session: Session)

  /** CServerSocks::slotRead: one octet is read, the rest of the first read goes to the session. */
  function Dispatch(v: Variant, cfg: Config, first: seq<byte>): Service {
    if first == [] then Refused
    else if first[0] == VERSION then
      if cfg.v5 then Socks5(Read(v, cfg, Fresh(), first[1..])) else Ignored
    else if first[0] == 4 then
      if cfg.v4 then Socks4 else Ignored
    else Refused
  }

  /** A whole connection, read chunk by chunk. */
  function Serve(v: Variant, cfg: Config, chunks: seq<seq<byte>>): Service {
    if chunks == [] then Ignored
    else
      match Dispatch(v, cfg, chunks[0])
      case Socks5(s) => Socks5(ReadAll(v, cfg, s, chunks[1..]))
      case other => other
  }

  function ObserveService(s: Service): Service {
    match s
    case Socks5(session) => Socks5(Observe(session))
    case other => other
  }

  predicate Splits(chunks: seq<seq<byte>>, stream: seq<byte>) {
    chunks != [] && NonEmpty(chunks) && Flat(chunks) == stream
  }

  lemma {:induction false} ReadAllObserved(v: Variant, cfg: Config, s: Session, t: Session, chunks: seq<seq<byte>>)
    requires Observe(s) == Observe(t)
    ensures Observe(ReadAll(v, cfg, s, chunks)) == Observe(ReadAll(v, cfg, t, chunks))
    decreases |chunks|
  {
    if chunks == [] {
    } else {
      ReadAllObserved(v, cfg, Read(v, cfg, s, chunks[0]), Read(v, cfg, t, chunks[0]), chunks[1..]);
    }
  }

  lemma ServeAsOne(v: Variant, cfg: Config, chunks: seq<seq<byte>>, stream: seq<byte>)
    requires Splits(chunks, stream)
    requires v.Written? && stream[0] == VERSION && cfg.v5 ==> !Hazard(cfg, stream[1..])
    ensures ObserveService(Serve(v, cfg, chunks)) == ObserveService(Serve(v, cfg, [stream]))
  {
    var first, rest := chunks[0], chunks[1..];
    assert stream == first + Flat(rest);
    assert stream[0] == first[0];
    if stream[0] == VERSION && cfg.v5 {
      var head := first[1..];
      assert stream[1..] == head + Flat(rest);
      assert ReadAll(v, cfg, Read(v, cfg, Fresh(), stream[1..]), [stream][1..]) == Read(v, cfg, Fresh(), stream[1..]);
      if head == [] {
        assert Fresh().received + [] == Fresh().received;
        assert Read(v, cfg, Fresh(), head) == Fresh();
        assert stream[1..] == Flat(rest);
        ReadsAsOne(v, cfg, rest);
      } else {
        var all := [head] + rest;
        assert all[0] == head && all[1..] == rest;
        assert Flat(all) == stream[1..];
        forall i | 0 <= i < |all|
          ensures all[i] != []
        {
          if i > 0 { assert all[i] == chunks[i]; }
        }
        ReadsAsOne(v, cfg, all);
      }
    }
  }

  /** As intended, every split of every stream shows the same service. */
  lemma ChunkingIndependence(cfg: Config, chunks: seq<seq<byte>>, stream: seq<byte>)
    requires Splits(chunks, stream)
    ensures ObserveService(Serve(Intended, cfg, chunks)) == ObserveService(Serve(Intended, cfg, [stream]))
  {
    ServeAsOne(Intended, cfg, chunks, stream);
  }

  /** For every split of every stream the first octet alone decides: 5 and 4 are served where they are switched on and
      ignored where they are not, anything else is refused. */
  lemma ServedByVersion(v: Variant, cfg: Config, chunks: seq<seq<byte>>, stream: seq<byte>)
    requires Splits(chunks, stream)
    ensures var r := Serve(v, cfg, chunks);
            stream != []
            && (r.Socks5? <==> stream[0] == 5 && cfg.v5) && (r.Socks4? <==> stream[0] == 4 && cfg.v4)
            && (r.Ignored? <==> (stream[0] == 5 && !cfg.v5) || (stream[0] == 4 && !cfg.v4))
            && (r.Refused? <==> stream[0] != 5 && stream[0] != 4)
  {
    assert stream == chunks[0] + Flat(chunks[1..]);
    assert stream[0] == chunks[0][0];
  }

  lemma SplitInTwo(stream: seq<byte>, k: nat)
    requires 0 < k < |stream|
    ensures Splits([stream[..k], stream[k..]], stream)
  {
    var cs := [stream[..k], stream[k..]];
    assert cs[1..] == [stream[k..]];
    FlatOne(stream[k..]);
    assert stream[..k] + stream[k..] == stream;
  }

  /** A stream with a hazard shows two different services for two splits. */
  lemma HazardSplits(cfg: Config, stream: seq<byte>) returns (k: nat)
    requires stream != [] && stream[0] == VERSION && cfg.v5
    requires Hazard(cfg, stream[1..])
    ensures 0 < k < |stream|
    ensures ObserveService(Serve(Written, cfg, [stream[..k], stream[k..]])) != ObserveService(Serve(Written, cfg, [stream]))
  {
    var body := stream[1..];
    var f := Fresh();
    k := HazardPoint(cfg, body) + 1;
    var a, b := body[..k - 1], body[k - 1..];
    assert stream[..k][1..] == a && stream[k..] == b;
    assert a + b == body;
    var cs := [stream[..k], stream[k..]];
    assert cs[1..] == [b];
    assert ReadAll(Written, cfg, Read(Written, cfg, f, a), [b]) == Read(Written, cfg, Read(Written, cfg, f, a), b) by {
      var bs := [b];
      assert bs[1..] == [];
    }
    var whole := [stream];
    assert whole[1..] == [];
    HazardTells(cfg, a, b);
  }

  /** The octets of the frame behind which the written code can tell one read from two. */
  function HazardPoint(cfg: Config, body: seq<byte>): (k: nat)
    requires Hazard(cfg, body)
    ensures 0 < k < |body|
  {
    if 128 <= body[0] then 1
    else
      var m := ParseMethods(Written, body).value;
      var rest := body[m.len..];
      if Select(cfg.methods, m.offered) == NO_AUTHENTICATION then
        RequestExtend(rest, []);
        assert rest + [] == rest;
        m.len + ParseRequest(rest).value.len
      else m.len + ParseLogin(rest).value.len
  }

  /** The session right after a complete method frame, with octets behind the frame. */
  function Negotiated(cfg: Config, a: seq<byte>, m: Methods): Session
    requires 0 <= m.len <= |a|
  {
    var chosen := Select(cfg.methods, m.offered);
    Fresh().(chosen := chosen, status := Authentication, sent := [MethodReply(chosen)],
             received := Fresh().received + a, buf := a[m.len..], consumed := [a[..m.len]])
  }

  lemma ReadNegotiated(v: Variant, cfg: Config, a: seq<byte>, m: Methods)
    requires ParseMethods(v, a) == Some(m) && 0 <= m.len < |a|
    ensures Read(v, cfg, Fresh(), a) == ProcessAuthenticator(v, cfg, Negotiated(cfg, a, m))
  {
    var s := Grown(Fresh(), a);
    assert [] + a == a;
    var chosen := Select(cfg.methods, m.offered);
    var u := Send(s, MethodReply(chosen)).(chosen := chosen, status := Authentication);
    assert Read(v, cfg, Fresh(), a) == ProcessNegotiate(v, cfg, s) == Remove(v, cfg, u, m.len);
    RemoveFrame(v, cfg, u, m.len);
    assert Taken(u, m.len) == Negotiated(cfg, a, m);
  }

  /** The hazard is a refused login with octets behind it. */
  predicate RefusedEarly(cfg: Config, stream: seq<byte>)
    requires Hazard(cfg, stream)
  {
    stream[0] < 128 && Select(cfg.methods, ParseMethods(Written, stream).value.offered) != NO_AUTHENTICATION
  }

  /** Two reads end what one read leaves alive. */
  predicate Dies(cfg: Config, a: seq<byte>, b: seq<byte>) {
    !Live(Read(Written, cfg, Read(Written, cfg, Fresh(), a), b)) && Live(Read(Written, cfg, Fresh(), a + b))
  }

  lemma HazardTells(cfg: Config, a: seq<byte>, b: seq<byte>)
    requires Hazard(cfg, a + b) && |a| == HazardPoint(cfg, a + b)
    ensures !RefusedEarly(cfg, a + b) ==> Dies(cfg, a, b)
    ensures Observe(Read(Written, cfg, Read(Written, cfg, Fresh(), a), b)) != Observe(Read(Written, cfg, Fresh(), a + b))
  {
    var body := a + b;
    if 128 <= body[0] {
      CountTells(cfg, a, b);
    } else {
      var m := ParseMethods(Written, body).value;
      assert ParseMethods(Written, a) == Some(m) by {
        assert a[0] == body[0];
        assert a[1..m.len] == body[1..m.len];
      }
      assert body[m.len..] == a[m.len..] + b;
      if Select(cfg.methods, m.offered) == NO_AUTHENTICATION {
        RequestOfFrame(a[m.len..], b);
        RequestTells(cfg, a, b, m, ParseRequest(a[m.len..]).value);
      } else {
        LoginOfFrame(a[m.len..], b);
        LoginTells(cfg, a, b, m, ParseLogin(a[m.len..]).value);
      }
    }
  }

  lemma CountTells(cfg: Config, a: seq<byte>, b: seq<byte>)
    requires |a| == 1 && b != [] && 128 <= a[0] < 255
    ensures Dies(cfg, a, b)
    ensures Observe(Read(Written, cfg, Read(Written, cfg, Fresh(), a), b)) != Observe(Read(Written, cfg, Fresh(), a + b))
  {
    ReadLargeCount(cfg, a);
    ReadLargeCount(cfg, a + b);
    var s := Read(Written, cfg, Fresh(), a);
    assert Read(Written, cfg, s, b) == ProcessAuthenticator(Written, cfg, Grown(s, b));
  }

  /** As written, a method count of 128 to 254 is refused at once and everything read so far is dropped. */
  lemma ReadLargeCount(cfg: Config, a: seq<byte>)
    requires a != [] && 128 <= a[0] < 255
    ensures var s := Read(Written, cfg, Fresh(), a);
            Live(s) && s.status.Authentication? && s.chosen == NO_ACCEPTABLE && s.buf == []
            && s.sent == [MethodReply(NO_ACCEPTABLE)]
  {
    var s := Grown(Fresh(), a);
    assert [] + a == a;
    var m := Methods([], 1 + Signed(a[0]));
    assert ParseMethods(Written, a) == Some(m) && m.len < 0;
    var u := Send(s, MethodReply(NO_ACCEPTABLE)).(chosen := NO_ACCEPTABLE, status := Authentication);
    assert Read(Written, cfg, Fresh(), a) == ProcessNegotiate(Written, cfg, s) == Remove(Written, cfg, u, m.len);
  }

  lemma RequestTells(cfg: Config, a: seq<byte>, b: seq<byte>, m: Methods, r: Request)
    requires b != [] && |a| > m.len >= 1
    requires ParseMethods(Written, a) == Some(m) == ParseMethods(Written, a + b)
    requires Select(cfg.methods, m.offered) == NO_AUTHENTICATION
    requires ParseRequest(a[m.len..]) == Some(r) == ParseRequest((a + b)[m.len..])
    requires r.Target? && r.command == CONNECT && HostText(r.address) != []
    ensures Dies(cfg, a, b)
    ensures Observe(Read(Written, cfg, Read(Written, cfg, Fresh(), a), b)) != Observe(Read(Written, cfg, Fresh(), a + b))
  {
    ReadDials(cfg, a, m, r);
    ReadDials(cfg, a + b, m, r);
    ReadWhileDialling(cfg, Read(Written, cfg, Fresh(), a), b, r);
  }

  lemma ReadDials(cfg: Config, a: seq<byte>, m: Methods, r: Request)
    requires ParseMethods(Written, a) == Some(m) && 0 <= m.len < |a|
    requires Select(cfg.methods, m.offered) == NO_AUTHENTICATION
    requires ParseRequest(a[m.len..]) == Some(r) && r.Target? && r.command == CONNECT && HostText(r.address) != []
    ensures var t := Read(Written, cfg, Fresh(), a);
            Live(t) && t.status.ClientRequest? && t.peer.Dialling? && t.buf == a[m.len..] && t.targetLen == r.len
            && t.forwarded == [] && t.dials == [Endpoint(HostText(r.address), r.port)]
  {
    ReadNegotiated(Written, cfg, a, m);
    var s := Negotiated(cfg, a, m).(status := ClientRequest);
    StageHandler(Written, cfg, s);
    DialStarts(s, r);
  }

  lemma RequestOfFrame(rest: seq<byte>, b: seq<byte>)
    requires ParseRequest(rest + b).Some? && ParseRequest(rest + b).value.Target?
    requires |rest| == ParseRequest(rest + b).value.len
    ensures ParseRequest(rest) == ParseRequest(rest + b)
  {
    var r := ParseRequest(rest + b).value;
    assert rest == (rest + b)[..r.len];
    AcceptedRequestIsEncoding(rest + b);
    RequestRoundTrip(r.command, (rest + b)[2], r.address, r.port, []);
    assert rest + [] == rest;
  }

  lemma DialStarts(s: Session, r: Request)
    requires Live(s) && s.status.ClientRequest? && s.peer.NoPeer?
    requires ParseRequest(s.buf) == Some(r) && r.Target? && r.command == CONNECT && HostText(r.address) != []
    ensures var t := ProcessClientRequest(Written, s);
            Live(t) && t.status.ClientRequest? && t.peer.Dialling? && t.buf == s.buf && t.targetLen == r.len
            && t.forwarded == s.forwarded && t.dials == s.dials + [Endpoint(HostText(r.address), r.port)]
  {
  }

  /** As written, any read while the dial is pending dials again and runs into Q_ASSERT(false). */
  lemma ReadWhileDialling(cfg: Config, s: Session, more: seq<byte>, r: Request)
    requires Live(s) && s.status.ClientRequest? && s.peer.Dialling?
    requires ParseRequest(s.buf) == Some(r) && r.Target? && r.command == CONNECT && HostText(r.address) != []
    ensures Read(Written, cfg, s, more).halt.Trapped?
  {
    RequestExtend(s.buf, more);
    assert Read(Written, cfg, s, more) == ProcessClientRequest(Written, Grown(s, more));
  }

  lemma LoginTells(cfg: Config, a: seq<byte>, b: seq<byte>, m: Methods, l: Login)
    requires b != [] && |a| > m.len >= 1
    requires ParseMethods(Written, a) == Some(m) == ParseMethods(Written, a + b)
    requires Select(cfg.methods, m.offered) == USER_PASSWORD
    requires ParseLogin(a[m.len..]) == Some(l) == ParseLogin((a + b)[m.len..])
    requires l.Login? && !Credentials(cfg, l) && l.len == |a| - m.len
    ensures Observe(Read(Written, cfg, Read(Written, cfg, Fresh(), a), b)) != Observe(Read(Written, cfg, Fresh(), a + b))
  {
    ReadNegotiated(Written, cfg, a, m);
    ReadNegotiated(Written, cfg, a + b, m);
    RefusedLogin(cfg, Negotiated(cfg, a, m), l);
    RefusedLogin(cfg, Negotiated(cfg, a + b, m), l);
  }

  lemma LoginOfFrame(rest: seq<byte>, b: seq<byte>)
    requires ParseLogin(rest + b).Some? && ParseLogin(rest + b).value.Login?
    requires |rest| == ParseLogin(rest + b).value.len
    ensures ParseLogin(rest) == ParseLogin(rest + b)
  {
    var n: int := rest[1];
    var p: int := (rest + b)[n + 2];
    assert |rest| == 3 + n + p;
    assert rest[n + 2] == p;
    assert (rest + b)[2..2 + n] == rest[2..2 + n];
    assert (rest + b)[n + 3..n + 3 + p] == rest[n + 3..n + 3 + p];
  }

  lemma RemoveClosed(v: Variant, cfg: Config, u: Session, n: nat)
    requires !u.open && u.status.ClientRequest? && n <= |u.buf|
    ensures Remove(v, cfg, u, n) == if n < |u.buf| then Trap(Taken(u, n)) else Taken(u, n)
  {
    if n == |u.buf| {
      assert u.buf[..n] == u.buf;
    }
  }

  /** As written, a refused login traps exactly when octets wait behind it. */
  lemma RefusedLogin(cfg: Config, s: Session, l: Login)
    requires Live(s) && s.status.Authentication? && s.chosen == USER_PASSWORD
    requires ParseLogin(s.buf) == Some(l) && l.Login? && l.len <= |s.buf| && !Credentials(cfg, l)
    ensures var t := Taken(Close(Send(s, LoginReply(255))).(status := ClientRequest), l.len);
            ProcessAuthenticator(Written, cfg, s) == if l.len < |s.buf| then Trap(t) else t
  {
    RemoveClosed(Written, cfg, Close(Send(s, LoginReply(255))).(status := ClientRequest), l.len);
  }

  /** Exactly when the written code is independent of the split. */
  lemma WrittenChunkingExact(cfg: Config, stream: seq<byte>)
    requires stream != []
    ensures (forall chunks {:trigger Splits(chunks, stream)} :: Splits(chunks, stream) ==>
               ObserveService(Serve(Written, cfg, chunks)) == ObserveService(Serve(Written, cfg, [stream])))
        <==> !(stream[0] == VERSION && cfg.v5 && Hazard(cfg, stream[1..]))
  {
    if stream[0] == VERSION && cfg.v5 && Hazard(cfg, stream[1..]) {
      var k := HazardSplits(cfg, stream);
      SplitInTwo(stream, k);
    } else {
      forall chunks | Splits(chunks, stream)
        ensures ObserveService(Serve(Written, cfg, chunks)) == ObserveService(Serve(Written, cfg, [stream]))
      {
        ServeAsOne(Written, cfg, chunks, stream);
      }
    }
  }
}
