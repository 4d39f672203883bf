/** A one-shot reading of a whole client stream, without buffers or states, and the session measured against it. */
module Socks5OneShot {
  import opened Bytes
  import opened PeerConnector
  import opened Readings
  import opened Socks5Frames
  import opened Socks5Session
  import opened Socks5Chunking

  /** What a client stream (after the version octet) leads to: the replies, the target to dial, whether the
      session is still alive, and the octets that no stage has taken. */
  datatype Verdict =
    | Waiting(replies: seq<Output>, rest: seq<byte>)
    | Dial(replies: seq<Output>, to: Endpoint, rest: seq<byte>)
    | Closed(replies: seq<Output>)
    | Bound(replies: seq<Output>)

  function Refusal(buf: seq<byte>, code: byte): Output
    requires buf != []
  {
    RequestReply(buf[0], code, NullAddress, 0)
  }

  function JudgeRequest(replies: seq<Output>, rest: seq<byte>): Verdict {
    match ParseRequest(rest)
    case None => Waiting(replies, rest)
    case Some(OtherVersion) => Waiting(replies, rest)
    case Some(OtherAddressType) => Closed(replies + [Refusal(rest, ADDRESS_TYPE_NOT_SUPPORTED)])
    case Some(Target(command, address, p, _)) =>
      if command == CONNECT then
        if HostText(address) == [] then Closed(replies + [Refusal(rest, HOST_UNREACHABLE)])
        else Dial(replies, Endpoint(HostText(address), p), rest)
      else if command == BIND then Bound(replies)
      else if command == UDP_ASSOCIATE then Waiting(replies, rest)
      else Closed(replies + [Refusal(rest, COMMAND_NOT_SUPPORTED)])
  }

  function JudgeLogin(cfg: Config, replies: seq<Output>, rest: seq<byte>): Verdict {
    match ParseLogin(rest)
    case None => Waiting(replies, rest)
    case Some(BadLoginVersion) => Closed(replies + [LoginReply(1)])
    case Some(Login(user, password, len)) =>
      LoginExtend(rest, []);
      assert rest + [] == rest;
      if user == cfg.user && password == cfg.password
      then JudgeRequest(replies + [LoginReply(0)], rest[len..])
      else Closed(replies + [LoginReply(255)])
  }

  function Judge(cfg: Config, stream: seq<byte>): Verdict {
    match ParseMethods(Intended, stream)
    case None => Waiting([], stream)
    case Some(m) =>
      var chosen := Select(cfg.methods, m.offered);
      var replies := [MethodReply(chosen)];
      var rest := stream[m.len..];
      if rest == [] then Waiting(replies, [])
      else if chosen == NO_AUTHENTICATION then JudgeRequest(replies, rest)
      else if chosen == USER_PASSWORD then JudgeLogin(cfg, replies, rest)
      else Closed(replies)
  }

  /** The session shows exactly the verdict. */
  predicate Shows(s: Session, v: Verdict) {
    s.sent == v.replies
    && s.dials == (if v.Dial? then [v.to] else [])
    && s.forwarded == []
    && match v
       case Waiting(_, rest) => Live(s) && s.peer.NoPeer? && s.buf == rest
       case Dial(_, to, rest) => Live(s) && s.peer.Dialling? && s.status.ClientRequest? && s.target == to && s.buf == rest
       case Closed(_) => !s.open && s.halt.Running?
       case Bound(_) => s.halt.Outside?
  }

  lemma RequestShows(s: Session)
    requires Live(s) && s.status.ClientRequest? && s.peer.NoPeer? && s.dials == [] && s.forwarded == []
    ensures Shows(ProcessClientRequest(Intended, s), JudgeRequest(s.sent, s.buf))
  {
  }

  lemma LoginShows(cfg: Config, s: Session)
    requires Live(s) && s.status.Authentication? && s.peer.NoPeer? && s.dials == [] && s.forwarded == []
    requires s.chosen == USER_PASSWORD
    ensures Shows(ProcessAuthenticator(Intended, cfg, s), JudgeLogin(cfg, s.sent, s.buf))
  {
    var p := ParseLogin(s.buf);
    if p.Some? && p.value.Login? && Credentials(cfg, p.value) {
      LoginExtend(s.buf, []);
      assert s.buf + [] == s.buf;
      var l := p.value;
      var u := Send(s, LoginReply(0)).(status := ClientRequest);
      assert ProcessAuthenticator(Intended, cfg, s) == Remove(Intended, cfg, u, l.len);
      RemoveFrame(Intended, cfg, u, l.len);
      var t := Taken(u, l.len);
      if t.buf != [] {
        RequestShows(t);
      }
    }
  }

  /** One read of a whole stream shows the verdict on it. */
  lemma OneReadShows(cfg: Config, stream: seq<byte>)
    ensures Shows(Read(Intended, cfg, Fresh(), stream), Judge(cfg, stream))
  {
    var p := ParseMethods(Intended, stream);
    if p.None? {
      assert [] + stream == stream;
      assert Read(Intended, cfg, Fresh(), stream) == ProcessNegotiate(Intended, cfg, Grown(Fresh(), stream));
    } else if p.value.len < |stream| {
      var m := p.value;
      ReadNegotiated(Intended, cfg, stream, m);
      NegotiatedShows(cfg, stream, m);
    } else {
      ReadExactly(Intended, cfg, stream, p.value);
    }
  }

  lemma ReadExactly(v: Variant, cfg: Config, a: seq<byte>, m: Methods)
    requires ParseMethods(v, a) == Some(m) && m.len == |a|
    ensures Read(v, cfg, Fresh(), a) == Negotiated(cfg, a, m)
  {
    var s := Grown(Fresh(), a);
    assert [] + a == a;
    var chosen := Select(cfg.methods, m.offered);
    var u := Send(s, MethodReply(chosen)).(chosen := chosen, status := Authentication);
    assert Read(v, cfg, Fresh(), a) == ProcessNegotiate(v, cfg, s) == Remove(v, cfg, u, m.len);
    RemoveFrame(v, cfg, u, m.len);
    assert Taken(u, m.len) == Negotiated(cfg, a, m);
  }

  lemma NegotiatedShows(cfg: Config, stream: seq<byte>, m: Methods)
    requires ParseMethods(Intended, stream) == Some(m) && 0 <= m.len < |stream|
    ensures Shows(ProcessAuthenticator(Intended, cfg, Negotiated(cfg, stream, m)), Judge(cfg, stream))
  {
    var t := Negotiated(cfg, stream, m);
    if t.chosen == NO_AUTHENTICATION {
      var u := t.(status := ClientRequest);
      StageHandler(Intended, cfg, u);
      assert ProcessAuthenticator(Intended, cfg, t) == ProcessClientRequest(Intended, u);
      RequestShows(u);
    } else if t.chosen == USER_PASSWORD {
      LoginShows(cfg, t);
    }
  }

  lemma ShownAlike(s: Session, t: Session, v: Verdict)
    requires Observe(s) == Observe(t) && Shows(t, v)
    ensures Shows(s, v)
  {
  }

  /** For every client stream and every split of it into reads, the session shows what the one-shot reading says. */
  lemma SessionIsOneShot(cfg: Config, chunks: seq<seq<byte>>)
    requires NonEmpty(chunks)
    ensures Shows(ReadAll(Intended, cfg, Fresh(), chunks), Judge(cfg, Flat(chunks)))
  {
    var stream := Flat(chunks);
    ReadsAsOne(Intended, cfg, chunks);
    OneReadShows(cfg, stream);
    ShownAlike(ReadAll(Intended, cfg, Fresh(), chunks), Read(Intended, cfg, Fresh(), stream), Judge(cfg, stream));
  }

  // ---------------------------------------------------------------- the written code against the intended one

  /** The streams on which one read by the written code shows something else. For a count of 128 or more the two
      readings only agree when no method is acceptable and the frame ends as the wrapped length has it; a complete
      login differs unless it is refused at the very end of the read. */
  predicate Slip(cfg: Config, stream: seq<byte>) {
    if stream == [] then false
    else
      var p := ParseMethods(Intended, stream);
      if stream[0] >= 128 then
        !(p.Some? && Select(cfg.methods, p.value.offered) == NO_ACCEPTABLE
          && (stream[0] == 255 <==> |stream| > p.value.len))
      else
        p.Some? && Select(cfg.methods, p.value.offered) == USER_PASSWORD
        && var rest := stream[p.value.len..];
           var l := ParseLogin(rest);
           l.Some? && l.value.Login? && (Credentials(cfg, l.value) || |rest| > l.value.len)
  }

  lemma RequestReadings(s: Session)
    requires !s.peer.Dialling?
    ensures ProcessClientRequest(Written, s) == ProcessClientRequest(Intended, s)
  {
  }

  lemma GrowsOutput(v: Variant, cfg: Config, s: Session)
    ensures s.sent <= ProcessClientRequest(v, s).sent
    ensures Live(s) && !ProcessClientRequest(v, s).open ==> |s.sent| < |ProcessClientRequest(v, s).sent|
  {
    var r := ParseRequest(s.buf);
    if r.Some? && r.value.Target? {
      DialGrows(s.(target := Endpoint(HostText(r.value.address), r.value.port), targetLen := r.value.len));
    }
  }

  lemma DialGrows(s: Session)
    ensures s.sent <= ProcessConnect(s).sent
    ensures Live(s) && !ProcessConnect(s).open ==> |s.sent| < |ProcessConnect(s).sent|
  {
  }

  lemma LoginReadings(cfg: Config, s: Session)
    requires Live(s) && s.status.Authentication? && s.peer.NoPeer? && s.chosen == USER_PASSWORD
    ensures Observe(ProcessAuthenticator(Written, cfg, s)) == Observe(ProcessAuthenticator(Intended, cfg, s))
       <==> !(var l := ParseLogin(s.buf);
              l.Some? && l.value.Login? && (Credentials(cfg, l.value) || |s.buf| > l.value.len))
  {
    var p := ParseLogin(s.buf);
    if p.Some? && p.value.Login? {
      LoginExtend(s.buf, []);
      assert s.buf + [] == s.buf;
      if Credentials(cfg, p.value) {
        AcceptedLoginDiffers(cfg, s, p.value);
      } else {
        RefusedLogin(cfg, s, p.value);
        assert ProcessAuthenticator(Intended, cfg, s) == Close(Send(s, LoginReply(255)));
      }
    }
  }

  /** As written an accepted login closes the session; as intended it goes on, or fails later with a further reply. */
  lemma AcceptedLoginDiffers(cfg: Config, s: Session, l: Login)
    requires Live(s) && s.status.Authentication? && s.peer.NoPeer? && s.chosen == USER_PASSWORD
    requires ParseLogin(s.buf) == Some(l) && l.Login? && l.len <= |s.buf| && Credentials(cfg, l)
    ensures Observe(ProcessAuthenticator(Written, cfg, s)) != Observe(ProcessAuthenticator(Intended, cfg, s))
    ensures var t := ProcessAuthenticator(Written, cfg, s);
            t.sent == s.sent + [LoginReply(0)] && !t.open && t.peer.NoPeer? && t.halt.Running?
            && t.dials == s.dials && t.forwarded == s.forwarded
  {
    var u := Send(s, LoginReply(0)).(status := ClientRequest);
    var t := Taken(u, l.len);
    assert ProcessAuthenticator(Written, cfg, s) == Close(Send(s, LoginReply(0)));
    assert ProcessAuthenticator(Intended, cfg, s) == Remove(Intended, cfg, u, l.len);
    RemoveFrame(Intended, cfg, u, l.len);
    GrowsOutput(Intended, cfg, t);
  }

  lemma SmallCountReadings(cfg: Config, stream: seq<byte>)
    requires stream != [] && stream[0] < 128
    ensures Observe(Read(Written, cfg, Fresh(), stream)) == Observe(Read(Intended, cfg, Fresh(), stream))
       <==> !Slip(cfg, stream)
  {
    var p := ParseMethods(Intended, stream);
    assert ParseMethods(Written, stream) == p;
    if p.None? {
      assert [] + stream == stream;
      var s := Grown(Fresh(), stream);
      assert Read(Intended, cfg, Fresh(), stream) == ProcessNegotiate(Intended, cfg, s) == s;
      assert Read(Written, cfg, Fresh(), stream) == ProcessNegotiate(Written, cfg, s) == s;
    } else if p.value.len < |stream| {
      var m := p.value;
      ReadNegotiated(Intended, cfg, stream, m);
      ReadNegotiated(Written, cfg, stream, m);
      var t := Negotiated(cfg, stream, m);
      if t.chosen == USER_PASSWORD {
        LoginReadings(cfg, t);
      } else if t.chosen == NO_AUTHENTICATION {
        var u := t.(status := ClientRequest);
        StageHandler(Intended, cfg, u);
        StageHandler(Written, cfg, u);
        RequestReadings(u);
      }
    } else {
      ReadExactly(Intended, cfg, stream, p.value);
      ReadExactly(Written, cfg, stream, p.value);
    }
  }

  lemma LargeCountReadings(cfg: Config, stream: seq<byte>)
    requires stream != [] && stream[0] >= 128
    ensures Observe(Read(Written, cfg, Fresh(), stream)) == Observe(Read(Intended, cfg, Fresh(), stream))
       <==> !Slip(cfg, stream)
  {
    LargeCountWritten(cfg, stream);
    LargeCountIntended(cfg, stream);
  }

  lemma LargeCountWritten(cfg: Config, stream: seq<byte>)
    requires stream != [] && stream[0] >= 128
    ensures var s := Read(Written, cfg, Fresh(), stream);
            if stream[0] < 255 then s == Refused(stream, stream) else Observe(s) == Observe(Close(Refused(stream, stream)))
  {
    var s := Grown(Fresh(), stream);
    assert [] + stream == stream;
    var m := Methods([], 1 + Signed(stream[0]));
    assert ParseMethods(Written, stream) == Some(m);
    var u := Send(s, MethodReply(NO_ACCEPTABLE)).(chosen := NO_ACCEPTABLE, status := Authentication);
    assert Read(Written, cfg, Fresh(), stream) == ProcessNegotiate(Written, cfg, s) == Remove(Written, cfg, u, m.len);
    if stream[0] == 255 {
      RemoveFrame(Written, cfg, u, 0);
    }
  }

  /** A session whose offer was refused and whose frame was taken. */
  function Refused(frame: seq<byte>, received: seq<byte>): Session {
    Fresh().(chosen := NO_ACCEPTABLE, status := Authentication, sent := [MethodReply(NO_ACCEPTABLE)],
             received := Fresh().received + received, consumed := [frame])
  }

  lemma ReadIncomplete(cfg: Config, stream: seq<byte>)
    requires ParseMethods(Intended, stream).None?
    ensures Read(Intended, cfg, Fresh(), stream).sent == []
  {
    assert [] + stream == stream;
    assert Read(Intended, cfg, Fresh(), stream) == ProcessNegotiate(Intended, cfg, Grown(Fresh(), stream));
  }

  lemma LargeCountIntended(cfg: Config, stream: seq<byte>)
    requires stream != [] && stream[0] >= 128
    ensures var s := Read(Intended, cfg, Fresh(), stream);
            var p := ParseMethods(Intended, stream);
            if p.None? then s.sent == []
            else
              var m := p.value;
              if Select(cfg.methods, m.offered) != NO_ACCEPTABLE then
                s.sent != [] && s.sent[0] != MethodReply(NO_ACCEPTABLE)
              else if m.len == |stream| then s == Refused(stream, stream)
              else Observe(s) == Observe(Close(Refused(stream, stream)))
  {
    var p := ParseMethods(Intended, stream);
    if p.None? {
      ReadIncomplete(cfg, stream);
    } else if p.value.len < |stream| {
      ReadNegotiated(Intended, cfg, stream, p.value);
      NegotiatedKeepsReply(cfg, Negotiated(cfg, stream, p.value));
    } else {
      ReadExactly(Intended, cfg, stream, p.value);
      assert stream[..p.value.len] == stream;
    }
  }

  lemma NegotiatedKeepsReply(cfg: Config, t: Session)
    requires Live(t) && t.status.Authentication?
    ensures t.sent <= ProcessAuthenticator(Intended, cfg, t).sent
  {
    if t.chosen == NO_AUTHENTICATION {
      var u := t.(status := ClientRequest);
      StageHandler(Intended, cfg, u);
      GrowsOutput(Intended, cfg, u);
    } else if t.chosen == USER_PASSWORD && ParseLogin(t.buf).Some? && ParseLogin(t.buf).value.Login?
              && Credentials(cfg, ParseLogin(t.buf).value) {
      var l := ParseLogin(t.buf).value;
      LoginExtend(t.buf, []);
      assert t.buf + [] == t.buf;
      var u := Send(t, LoginReply(0)).(status := ClientRequest);
      assert ProcessAuthenticator(Intended, cfg, t) == Remove(Intended, cfg, u, l.len);
      RemoveFrame(Intended, cfg, u, l.len);
      GrowsOutput(Intended, cfg, Taken(u, l.len));
    }
  }

  /** Exactly when one read by the written code shows what the intended code shows. */
  lemma WrittenReadExact(cfg: Config, stream: seq<byte>)
    ensures Observe(Read(Written, cfg, Fresh(), stream)) == Observe(Read(Intended, cfg, Fresh(), stream))
       <==> !Slip(cfg, stream)
  {
    if stream == [] {
      assert Fresh().received + [] == Fresh().received;
      assert Read(Written, cfg, Fresh(), stream) == Fresh() == Read(Intended, cfg, Fresh(), stream);
    } else if stream[0] < 128 {
      SmallCountReadings(cfg, stream);
    } else {
      LargeCountReadings(cfg, stream);
    }
  }

  /** Free of hazards and slips, the written code shows the one-shot reading for every split. */
  lemma WrittenIsOneShot(cfg: Config, chunks: seq<seq<byte>>)
    requires NonEmpty(chunks)
    requires !Hazard(cfg, Flat(chunks)) && !Slip(cfg, Flat(chunks))
    ensures Shows(ReadAll(Written, cfg, Fresh(), chunks), Judge(cfg, Flat(chunks)))
  {
    var stream := Flat(chunks);
    ReadsAsOne(Written, cfg, chunks);
    WrittenReadExact(cfg, stream);
    OneReadShows(cfg, stream);
    ShownAlike(ReadAll(Written, cfg, Fresh(), chunks), Read(Intended, cfg, Fresh(), stream), Judge(cfg, stream));
  }

  /** A slip shows: the one read ends otherwise than the one-shot reading says. */
  lemma SlipShows(cfg: Config, stream: seq<byte>)
    requires Slip(cfg, stream)
    ensures !Shows(Read(Written, cfg, Fresh(), stream), Judge(cfg, stream))
  {
    var p := ParseMethods(Intended, stream);
    if stream[0] >= 128 {
      LargeCountShows(cfg, stream);
    } else {
      var m := p.value;
      LoginReadAfterMethods(cfg, stream, m);
      LoginSlipShows(cfg, Negotiated(cfg, stream, m));
    }
  }

  lemma LargeCountShows(cfg: Config, stream: seq<byte>)
    requires stream != [] && stream[0] >= 128 && Slip(cfg, stream)
    ensures !Shows(Read(Written, cfg, Fresh(), stream), Judge(cfg, stream))
  {
    LargeCountWritten(cfg, stream);
  }

  lemma LoginReadAfterMethods(cfg: Config, stream: seq<byte>, m: Methods)
    requires stream != [] && stream[0] < 128 && ParseMethods(Intended, stream) == Some(m)
    requires Select(cfg.methods, m.offered) == USER_PASSWORD && m.len < |stream|
    ensures Read(Written, cfg, Fresh(), stream) == ProcessAuthenticator(Written, cfg, Negotiated(cfg, stream, m))
    ensures Judge(cfg, stream) == JudgeLogin(cfg, [MethodReply(USER_PASSWORD)], stream[m.len..])
  {
    ReadNegotiated(Written, cfg, stream, m);
  }

  lemma LoginSlipShows(cfg: Config, s: Session)
    requires Live(s) && s.status.Authentication? && s.peer.NoPeer? && s.chosen == USER_PASSWORD
    requires var l := ParseLogin(s.buf);
             l.Some? && l.value.Login? && (Credentials(cfg, l.value) || |s.buf| > l.value.len)
    ensures !Shows(ProcessAuthenticator(Written, cfg, s), JudgeLogin(cfg, s.sent, s.buf))
  {
    var l := ParseLogin(s.buf).value;
    LoginExtend(s.buf, []);
    assert s.buf + [] == s.buf;
    if Credentials(cfg, l) {
      assert ProcessAuthenticator(Written, cfg, s) == Close(Send(s, LoginReply(0)));
      JudgedOn(s.sent + [LoginReply(0)], s.buf[l.len..]);
    } else {
      RefusedLogin(cfg, s, l);
    }
  }

  /** A request that is refused is answered. */
  lemma JudgedOn(replies: seq<Output>, rest: seq<byte>)
    ensures var v := JudgeRequest(replies, rest);
            v.Closed? ==> |v.replies| == |replies| + 1
  {
  }

  /** A hazard without a slip shows for some split. */
  lemma HazardShows(cfg: Config, stream: seq<byte>) returns (chunks: seq<seq<byte>>)
    requires Hazard(cfg, stream) && !Slip(cfg, stream)
    ensures NonEmpty(chunks) && Flat(chunks) == stream
    ensures !Shows(ReadAll(Written, cfg, Fresh(), chunks), Judge(cfg, stream))
  {
    var k := HazardPoint(cfg, stream);
    var a, b := stream[..k], stream[k..];
    assert a + b == stream;
    HazardTells(cfg, a, b);
    SlipOrNot(cfg, stream);
    chunks := [a, b];
    SplitInTwo(stream, k);
    ReadTwoChunks(cfg, a, b);
    WrittenReadShows(cfg, stream);
    LiveShows(Read(Written, cfg, Fresh(), stream), ReadAll(Written, cfg, Fresh(), chunks), Judge(cfg, stream));
  }

  /** A refused login with octets behind it is a slip. */
  lemma SlipOrNot(cfg: Config, stream: seq<byte>)
    requires Hazard(cfg, stream) && !Slip(cfg, stream)
    ensures !RefusedEarly(cfg, stream)
  {
  }

  lemma WrittenReadShows(cfg: Config, stream: seq<byte>)
    requires !Slip(cfg, stream)
    ensures Shows(Read(Written, cfg, Fresh(), stream), Judge(cfg, stream))
  {
    WrittenReadExact(cfg, stream);
    OneReadShows(cfg, stream);
    ShownAlike(Read(Written, cfg, Fresh(), stream), Read(Intended, cfg, Fresh(), stream), Judge(cfg, stream));
  }

  /** A verdict that a live session shows, no dead one does. */
  lemma LiveShows(s: Session, t: Session, v: Verdict)
    requires Shows(s, v) && Live(s) && !Live(t)
    ensures !Shows(t, v)
  {
  }

  lemma ReadTwoChunks(cfg: Config, a: seq<byte>, b: seq<byte>)
    ensures ReadAll(Written, cfg, Fresh(), [a, b]) == Read(Written, cfg, Read(Written, cfg, Fresh(), a), b)
  {
    ReadAllAppend(Written, cfg, Fresh(), [a], b);
    ReadAllAppend(Written, cfg, Fresh(), [], a);
    assert [a] + [b] == [a, b] && [] + [a] == [a];
  }

  predicate ReadsOf(chunks: seq<seq<byte>>, stream: seq<byte>) {
    NonEmpty(chunks) && Flat(chunks) == stream
  }

  /** Exactly when the written code shows the one-shot reading for every split of a stream. */
  lemma WrittenOneShotExact(cfg: Config, stream: seq<byte>)
    ensures (forall chunks {:trigger ReadsOf(chunks, stream)} :: ReadsOf(chunks, stream) ==>
               Shows(ReadAll(Written, cfg, Fresh(), chunks), Judge(cfg, stream)))
        <==> !Hazard(cfg, stream) && !Slip(cfg, stream)
  {
    if Slip(cfg, stream) {
      SlipShows(cfg, stream);
      FlatOne(stream);
      ReadAllAppend(Written, cfg, Fresh(), [], stream);
      assert [] + [stream] == [stream];
      assert ReadsOf([stream], stream);
    } else if Hazard(cfg, stream) {
      var chunks := HazardShows(cfg, stream);
      assert ReadsOf(chunks, stream);
    } else {
      forall chunks | ReadsOf(chunks, stream)
        ensures Shows(ReadAll(Written, cfg, Fresh(), chunks), Judge(cfg, stream))
      {
        WrittenIsOneShot(cfg, chunks);
      }
    }
  }

  // ---------------------------------------------------------------- a compliant client

  /** The configured login fits the frame of RFC 1929. */
  predicate CanLogin(cfg: Config) {
    |cfg.user| < 256 && |cfg.password| < 256 && 0 !in cfg.user && 0 !in cfg.password
  }

  /** The client offers a method that the server picks and both can carry out. */
  predicate Acceptable(cfg: Config, ms: seq<byte>) {
    |ms| < 256
    && (Select(cfg.methods, ms) == NO_AUTHENTICATION || (Select(cfg.methods, ms) == USER_PASSWORD && CanLogin(cfg)))
  }

  /** What a compliant client sends before it may expect relayed bytes: its offer, a login if one is asked for,
      and the request. */
  function ClientOpening(cfg: Config, ms: seq<byte>, reserved: byte, a: Address, p: port): seq<byte>
    requires Acceptable(cfg, ms) && Encodable(a)
  {
    EncodeMethods(ms)
    + (if Select(cfg.methods, ms) == USER_PASSWORD then EncodeLogin(cfg.user, cfg.password) else [])
    + EncodeRequest(CONNECT, reserved, a, p)
  }

  /** The replies such a client has got when its target is dialled. */
  function OpeningReplies(chosen: byte): seq<Output> {
    if chosen == USER_PASSWORD then [MethodReply(chosen), LoginReply(0)] else [MethodReply(chosen)]
  }

  lemma Regroup(a: seq<byte>, b: seq<byte>, c: seq<byte>, d: seq<byte>)
    ensures a + b + c + d == a + (b + (c + d))
  {
  }

  lemma OpeningVerdict(cfg: Config, ms: seq<byte>, reserved: byte, a: Address, p: port, rest: seq<byte>)
    requires Acceptable(cfg, ms) && Encodable(a) && HostText(a) != []
    ensures Judge(cfg, ClientOpening(cfg, ms, reserved, a, p) + rest)
         == Dial(OpeningReplies(Select(cfg.methods, ms)), Endpoint(HostText(a), p),
                 EncodeRequest(CONNECT, reserved, a, p) + rest)
  {
    var request := EncodeRequest(CONNECT, reserved, a, p);
    var chosen := Select(cfg.methods, ms);
    JudgeConnect(OpeningReplies(chosen), reserved, a, p, rest);
    if chosen == USER_PASSWORD {
      Regroup(EncodeMethods(ms), EncodeLogin(cfg.user, cfg.password), request, rest);
      JudgeWithLogin(cfg, ms, request + rest);
    } else {
      Regroup(EncodeMethods(ms), [], request, rest);
      assert [] + (request + rest) == request + rest;
      JudgeMethods(cfg, ms, request + rest);
    }
  }

  lemma JudgeWithLogin(cfg: Config, ms: seq<byte>, tail: seq<byte>)
    requires |ms| < 256 && Select(cfg.methods, ms) == USER_PASSWORD && CanLogin(cfg)
    ensures Judge(cfg, EncodeMethods(ms) + (EncodeLogin(cfg.user, cfg.password) + tail))
         == JudgeRequest(OpeningReplies(USER_PASSWORD), tail)
  {
    JudgeMethods(cfg, ms, EncodeLogin(cfg.user, cfg.password) + tail);
    JudgeCorrectLogin(cfg, [MethodReply(USER_PASSWORD)], tail);
    assert [MethodReply(USER_PASSWORD)] + [LoginReply(0)] == OpeningReplies(USER_PASSWORD);
  }

  /** A client that offers an acceptable method, logs in if it has to, and asks for CONNECT is answered by exactly
      the method reply (and the login reply), and exactly its target is dialled, however its octets arrive. */
  lemma CompliantClientDials(cfg: Config, ms: seq<byte>, reserved: byte, a: Address, p: port, rest: seq<byte>,
                             chunks: seq<seq<byte>>)
    requires Acceptable(cfg, ms) && Encodable(a) && HostText(a) != []
    requires NonEmpty(chunks) && Flat(chunks) == ClientOpening(cfg, ms, reserved, a, p) + rest
    ensures var s := ReadAll(Intended, cfg, Fresh(), chunks);
            Live(s) && s.peer.Dialling? && s.dials == [Endpoint(HostText(a), p)]
            && s.buf == EncodeRequest(CONNECT, reserved, a, p) + rest
            && s.sent == OpeningReplies(Select(cfg.methods, ms))
  {
    OpeningVerdict(cfg, ms, reserved, a, p, rest);
    SessionIsOneShot(cfg, chunks);
  }

  /** The same of the written code, for a client that is not asked to log in and sends nothing behind its request. */
  lemma WrittenClientDials(cfg: Config, ms: seq<byte>, reserved: byte, a: Address, p: port, chunks: seq<seq<byte>>)
    requires |ms| < 128 && Encodable(a) && HostText(a) != []
    requires Select(cfg.methods, ms) == NO_AUTHENTICATION
    requires NonEmpty(chunks) && Flat(chunks) == EncodeMethods(ms) + EncodeRequest(CONNECT, reserved, a, p)
    ensures var s := ReadAll(Written, cfg, Fresh(), chunks);
            Live(s) && s.peer.Dialling? && s.dials == [Endpoint(HostText(a), p)]
            && s.buf == EncodeRequest(CONNECT, reserved, a, p)
            && s.sent == [MethodReply(NO_AUTHENTICATION)]
  {
    var request := EncodeRequest(CONNECT, reserved, a, p);
    var stream := EncodeMethods(ms) + request;
    MethodsRoundTrip(Written, ms, request);
    MethodsRoundTrip(Intended, ms, request);
    RequestRoundTrip(CONNECT, reserved, a, p, []);
    assert request + [] == request;
    assert stream[0] == |ms|;
    assert !Hazard(cfg, stream) && !Slip(cfg, stream);
    WrittenIsOneShot(cfg, chunks);
    JudgeMethods(cfg, ms, request);
    JudgeConnect([MethodReply(NO_AUTHENTICATION)], reserved, a, p, []);
  }

  /** The clients that the code of a reading serves. */
  predicate Served(v: Variant, cfg: Config, ms: seq<byte>, rest: seq<byte>) {
    Acceptable(cfg, ms)
    && (v.Written? ==> |ms| < 128 && Select(cfg.methods, ms) == NO_AUTHENTICATION && rest == [])
  }

  lemma ClientDials(v: Variant, cfg: Config, ms: seq<byte>, reserved: byte, a: Address, p: port, rest: seq<byte>,
                    chunks: seq<seq<byte>>)
    requires Served(v, cfg, ms, rest) && Encodable(a) && HostText(a) != []
    requires NonEmpty(chunks) && Flat(chunks) == ClientOpening(cfg, ms, reserved, a, p) + rest
    ensures var s := ReadAll(v, cfg, Fresh(), chunks);
            Live(s) && s.peer.Dialling? && s.dials == [Endpoint(HostText(a), p)]
            && s.buf == EncodeRequest(CONNECT, reserved, a, p) + rest
            && s.sent == OpeningReplies(Select(cfg.methods, ms))
  {
    if v.Intended? {
      CompliantClientDials(cfg, ms, reserved, a, p, rest, chunks);
    } else {
      var request := EncodeRequest(CONNECT, reserved, a, p);
      assert EncodeMethods(ms) + [] + request + [] == EncodeMethods(ms) + request;
      assert request + [] == request;
      WrittenClientDials(cfg, ms, reserved, a, p, chunks);
    }
  }

  lemma JudgeCorrectLogin(cfg: Config, replies: seq<Output>, rest: seq<byte>)
    requires CanLogin(cfg)
    ensures JudgeLogin(cfg, replies, EncodeLogin(cfg.user, cfg.password) + rest)
         == JudgeRequest(replies + [LoginReply(0)], rest)
  {
    LoginRoundTrip(cfg.user, cfg.password, rest);
    var buf := EncodeLogin(cfg.user, cfg.password) + rest;
    assert ParseLogin(buf) == Some(Login(cfg.user, cfg.password, |EncodeLogin(cfg.user, cfg.password)|));
  }

  lemma JudgeConnect(replies: seq<Output>, reserved: byte, a: Address, p: port, rest: seq<byte>)
    requires Encodable(a) && HostText(a) != []
    ensures var all := EncodeRequest(CONNECT, reserved, a, p) + rest;
            JudgeRequest(replies, all) == Dial(replies, Endpoint(HostText(a), p), all)
  {
    RequestRoundTrip(CONNECT, reserved, a, p, rest);
  }

  lemma JudgeMethods(cfg: Config, ms: seq<byte>, rest: seq<byte>)
    requires |ms| < 256 && rest != []
    ensures var chosen := Select(cfg.methods, ms);
            Judge(cfg, EncodeMethods(ms) + rest) ==
              if chosen == NO_AUTHENTICATION then JudgeRequest([MethodReply(chosen)], rest)
              else if chosen == USER_PASSWORD then JudgeLogin(cfg, [MethodReply(chosen)], rest)
              else Closed([MethodReply(chosen)])
  {
    MethodsRoundTrip(Intended, ms, rest);
  }
}
