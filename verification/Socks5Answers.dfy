/** What a session does with each request, and what its client gets for it, octet by octet. */
module Socks5Answers {
  import opened Bytes
  import opened PeerConnector
  import opened Readings
  import opened Socks5Frames
  import opened Socks5Session
  import opened Socks5OneShot
  import C = Socks5Chunking
  import Decimal

  // ---------------------------------------------------------------- the request stage

  /** An octet as a number. */
  function At(buf: seq<byte>, i: nat): int
    requires i < |buf|
  {
    buf[i]
  }

  /** A complete request with an IPv4 address or a domain. */
  predicate Complete(buf: seq<byte>) {
    |buf| >= 6 && buf[0] == 5
    && ((buf[3] == 1 && |buf| >= 10) || (buf[3] == 3 && |buf| >= 7 + At(buf, 4)))
  }

  /** The domain is empty, or starts with a NUL. */
  predicate NoHost(buf: seq<byte>)
    requires Complete(buf)
  {
    buf[3] == 3 && (buf[4] == 0 || buf[5] == 0)
  }

  /** The requests that are refused, by reply code: 8 for an address type other than IPv4 and domain, IPv6 included
      once it is there in full; 7 for a command other than 1, 2 and 3; 4 for a CONNECT without a host. */
  predicate RefusedWith(buf: seq<byte>, code: byte) {
    |buf| >= 4 && buf[0] == 5
    && ((code == 8 && buf[3] != 1 && buf[3] != 3 && (buf[3] == 4 ==> |buf| >= 22))
        || (code == 7 && Complete(buf) && buf[1] != 1 && buf[1] != 2 && buf[1] != 3)
        || (code == 4 && Complete(buf) && buf[1] == 1 && NoHost(buf)))
  }

  /** The buffers that are left as they are: too short, or with another version. */
  predicate LeftAlone(buf: seq<byte>) {
    |buf| < 4 || buf[0] != 5 || (buf[3] == 4 && |buf| < 22) || ((buf[3] == 1 || buf[3] == 3) && !Complete(buf))
  }

  /** `to` is the host and port at octets 4 and up. */
  predicate Names(buf: seq<byte>, to: Endpoint)
    requires Complete(buf)
  {
    if buf[3] == 1 then
      Decimal.ReadDotted(to.host) == [buf[4], buf[5], buf[6], buf[7]] && to.port == At(buf, 8) * 256 + At(buf, 9)
    else
      var n: int := buf[4];
      to.host <= buf[5..5 + n] && 0 !in to.host && (|to.host| < n ==> buf[5 + |to.host|] == 0)
      && to.port == At(buf, 5 + n) * 256 + At(buf, 6 + n)
  }

  /** In the request stage with no dial, in either reading: a refused request is answered by exactly one reply, of
      version 5 and with no address, and closes the session; a buffer that is left alone changes nothing. */
  lemma RequestRefused(v: Variant, s: Session, code: byte)
    requires Live(s) && s.status.ClientRequest? && s.peer.NoPeer?
    ensures var t := ProcessClientRequest(v, s);
            (RefusedWith(s.buf, code) ==>
               t.sent == s.sent + [RequestReply(5, code, NullAddress, 0)] && !t.open && t.halt.Running?
               && t.dials == s.dials && t.forwarded == s.forwarded)
            && (LeftAlone(s.buf) ==> t == s)
  {
    if RefusedWith(s.buf, code) && Complete(s.buf) {
      CompleteParsed(s.buf);
    }
  }

  lemma CompleteParsed(buf: seq<byte>)
    requires Complete(buf)
    ensures var r := ParseRequest(buf);
            r.Some? && r.value.Target? && r.value.command == buf[1]
            && Names(buf, Endpoint(HostText(r.value.address), r.value.port))
            && (HostText(r.value.address) == [] <==> NoHost(buf))
  {
    if buf[3] == 1 {
      Decimal.DottedReadsBack(buf[4..8]);
      Decimal.DottedLength(buf[4..8]);
    } else {
      var n: int := buf[4];
      CStrIsPrefix(buf[5..5 + n]);
    }
  }

  /** A complete request that is not refused: CONNECT dials the host and port it names, BIND leaves the model, and
      UDP ASSOCIATE has no effect. Nothing is sent yet. */
  lemma RequestAccepted(v: Variant, s: Session)
    requires Live(s) && s.status.ClientRequest? && s.peer.NoPeer? && Complete(s.buf)
    ensures var t := ProcessClientRequest(v, s);
            (s.buf[1] == 1 && !NoHost(s.buf) ==>
               Live(t) && t.peer.Dialling? && t.sent == s.sent && t.dials == s.dials + [t.target] && Names(s.buf, t.target))
            && (s.buf[1] == 2 ==> t.halt.Outside? && t.sent == s.sent && t.dials == s.dials)
            && (s.buf[1] == 3 ==> Live(t) && t.peer.NoPeer? && t.sent == s.sent && t.dials == s.dials && t.buf == s.buf)
  {
    CompleteParsed(s.buf);
  }

  // ---------------------------------------------------------------- from a new session, for every split

  /** What a client sends before its request: the methods, and a login if method 2 is picked. */
  function OpeningOctets(cfg: Config, ms: seq<byte>): seq<byte>
    requires Acceptable(cfg, ms)
  {
    [|ms|] + ms
    + if Select(cfg.methods, ms) == 2 then [1, |cfg.user|] + cfg.user + [|cfg.password|] + cfg.password else []
  }

  /** What it has got by then. */
  function OpeningAnswer(cfg: Config, ms: seq<byte>): seq<byte> {
    [5, Select(cfg.methods, ms)] + if Select(cfg.methods, ms) == 2 then [1, 0] else []
  }

  lemma OpeningWire(cfg: Config, ms: seq<byte>)
    ensures Wire(OpeningReplies(Select(cfg.methods, ms))) == OpeningAnswer(cfg, ms)
  {
    var c := Select(cfg.methods, ms);
    WirePush([], MethodReply(c));
    assert [] + [MethodReply(c)] == [MethodReply(c)];
    assert [] + [5, c] == [5, c];
    WirePush([MethodReply(c)], LoginReply(0));
    assert [MethodReply(c)] + [LoginReply(0)] == [MethodReply(c), LoginReply(0)];
  }

  /** The clients whose opening the code of a reading carries through. */
  predicate Opens(v: Variant, cfg: Config, ms: seq<byte>) {
    Acceptable(cfg, ms) && (v.Written? ==> |ms| < 128 && Select(cfg.methods, ms) == 0)
  }

  lemma OpeningJudged(cfg: Config, ms: seq<byte>, tail: seq<byte>)
    requires Acceptable(cfg, ms) && tail != []
    ensures Judge(cfg, OpeningOctets(cfg, ms) + tail) == JudgeRequest(OpeningReplies(Select(cfg.methods, ms)), tail)
  {
    if Select(cfg.methods, ms) == USER_PASSWORD {
      var login := EncodeLogin(cfg.user, cfg.password);
      assert OpeningOctets(cfg, ms) + tail == EncodeMethods(ms) + (login + tail);
      JudgeWithLogin(cfg, ms, tail);
    } else {
      assert OpeningOctets(cfg, ms) + tail == EncodeMethods(ms) + tail;
      JudgeMethods(cfg, ms, tail);
    }
  }

  /** For every split of an opening and a refused request, with anything behind it, the client gets exactly the answer
      to its opening and the reply, and the session is closed without a dial. */
  lemma RefusalsReachTheClient(v: Variant, cfg: Config, ms: seq<byte>, tail: seq<byte>, code: byte,
                               chunks: seq<seq<byte>>)
    requires Opens(v, cfg, ms) && RefusedWith(tail, code) && ReadsOf(chunks, OpeningOctets(cfg, ms) + tail)
    ensures var s := C.ReadAll(v, cfg, Fresh(), chunks);
            Wire(s.sent) == OpeningAnswer(cfg, ms) + [5, code, 0, 1, 0, 0, 0, 0, 0, 0]
            && !s.open && s.halt.Running? && s.dials == []
  {
    var stream := OpeningOctets(cfg, ms) + tail;
    var replies := OpeningReplies(Select(cfg.methods, ms));
    OpeningJudged(cfg, ms, tail);
    RefusalJudged(replies, tail, code);
    if v.Intended? {
      SessionIsOneShot(cfg, chunks);
    } else {
      WrittenOpening(cfg, ms, tail, code);
      WrittenIsOneShot(cfg, chunks);
    }
    OpeningWire(cfg, ms);
    WirePush(replies, RequestReply(5, code, NullAddress, 0));
    ReplyOctets(5, code, [0, 0, 0, 0], UNSPECIFIED, 0);
  }

  lemma RefusalJudged(replies: seq<Output>, tail: seq<byte>, code: byte)
    requires RefusedWith(tail, code)
    ensures JudgeRequest(replies, tail) == Closed(replies + [RequestReply(5, code, NullAddress, 0)])
  {
    if Complete(tail) {
      CompleteParsed(tail);
    }
  }

  lemma WrittenOpening(cfg: Config, ms: seq<byte>, tail: seq<byte>, code: byte)
    requires Opens(Written, cfg, ms) && RefusedWith(tail, code)
    ensures !C.Hazard(cfg, OpeningOctets(cfg, ms) + tail) && !Slip(cfg, OpeningOctets(cfg, ms) + tail)
  {
    var stream := OpeningOctets(cfg, ms) + tail;
    assert stream == EncodeMethods(ms) + tail;
    MethodsRoundTrip(Written, ms, tail);
    MethodsRoundTrip(Intended, ms, tail);
    assert stream[0] == |ms|;
    if Complete(tail) {
      CompleteParsed(tail);
    }
  }

  // ---------------------------------------------------------------- refused openings

  /** As intended, for every split: a client whose only methods are not supported gets 5, 255 and is closed as soon as
      it sends more. */
  lemma NoMethodReachesTheClient(cfg: Config, ms: seq<byte>, rest: seq<byte>, chunks: seq<seq<byte>>)
    requires |ms| < 256 && (forall m :: m in ms ==> m !in cfg.methods) && rest != []
    requires ReadsOf(chunks, [|ms|] + ms + rest)
    ensures var s := C.ReadAll(Intended, cfg, Fresh(), chunks);
            Wire(s.sent) == [5, 255] && !s.open && s.halt.Running? && s.dials == []
  {
    SelectIsFirst(cfg.methods, ms);
    JudgeMethods(cfg, ms, rest);
    SessionIsOneShot(cfg, chunks);
    WireOne(MethodReply(255));
  }

  lemma WireOne(o: Output)
    ensures Wire([o]) == OutputBytes(o)
  {
    WirePush([], o);
    assert [] + [o] == [o];
    assert [] + OutputBytes(o) == OutputBytes(o);
  }

  /** As intended, for every split: a client of method 2 whose user name or password is wrong gets 5, 2, 1, 255, and
      one whose login has another version gets 5, 2, 1, 1; both are closed without a dial. */
  lemma WrongLoginReachesTheClient(cfg: Config, ms: seq<byte>, user: seq<byte>, password: seq<byte>, rest: seq<byte>,
                                   chunks: seq<seq<byte>>)
    requires |ms| < 256 && Select(cfg.methods, ms) == 2
    requires |user| < 256 && |password| < 256 && 0 !in user && 0 !in password
    requires user != cfg.user || password != cfg.password
    requires ReadsOf(chunks, [|ms|] + ms + ([1, |user|] + user + [|password|] + password + rest))
    ensures var s := C.ReadAll(Intended, cfg, Fresh(), chunks);
            Wire(s.sent) == [5, 2, 1, 255] && !s.open && s.halt.Running? && s.dials == []
  {
    WrongLoginJudged(cfg, ms, user, password, rest);
    SessionIsOneShot(cfg, chunks);
    WireLogin(255);
  }

  lemma WrongLoginJudged(cfg: Config, ms: seq<byte>, user: seq<byte>, password: seq<byte>, rest: seq<byte>)
    requires |ms| < 256 && Select(cfg.methods, ms) == 2
    requires |user| < 256 && |password| < 256 && 0 !in user && 0 !in password
    requires user != cfg.user || password != cfg.password
    ensures Judge(cfg, [|ms|] + ms + ([1, |user|] + user + [|password|] + password + rest))
         == Closed([MethodReply(2)] + [LoginReply(255)])
  {
    var login := EncodeLogin(user, password);
    assert login == [1, |user|] + user + [|password|] + password;
    assert [|ms|] + ms == EncodeMethods(ms);
    JudgeMethods(cfg, ms, login + rest);
    LoginRoundTrip(user, password, rest);
  }

  lemma WireLogin(status: byte)
    ensures Wire([MethodReply(2)] + [LoginReply(status)]) == [5, 2, 1, status]
  {
    WirePush([MethodReply(2)], LoginReply(status));
    WireOne(MethodReply(2));
  }

  lemma OtherLoginReachesTheClient(cfg: Config, ms: seq<byte>, tail: seq<byte>, chunks: seq<seq<byte>>)
    requires |ms| < 256 && Select(cfg.methods, ms) == 2 && |tail| >= 2 && tail[0] != 1
    requires ReadsOf(chunks, [|ms|] + ms + tail)
    ensures var s := C.ReadAll(Intended, cfg, Fresh(), chunks);
            Wire(s.sent) == [5, 2, 1, 1] && !s.open && s.halt.Running? && s.dials == []
  {
    JudgeMethods(cfg, ms, tail);
    SessionIsOneShot(cfg, chunks);
    WireLogin(1);
  }

  // ---------------------------------------------------------------- CONNECT

  /** A CONNECT request for an IPv4 address. */
  function ConnectIPv4(reserved: byte, q: Quad, p: port): seq<byte> {
    [5, 1, reserved, 1, q[0], q[1], q[2], q[3], p / 256, p % 256]
  }

  /** A CONNECT request for a domain. */
  function ConnectDomain(reserved: byte, name: seq<byte>, p: port): seq<byte>
    requires |name| < 256
  {
    [5, 1, reserved, 3, |name|] + name + [p / 256, p % 256]
  }

  lemma ConnectOctets(reserved: byte, q: Quad, name: seq<byte>, p: port)
    requires |name| < 256
    ensures ConnectIPv4(reserved, q, p) == EncodeRequest(CONNECT, reserved, IPv4(q), p)
    ensures ConnectDomain(reserved, name, p) == EncodeRequest(CONNECT, reserved, Domain(name), p)
  {
    assert q == [q[0], q[1], q[2], q[3]];
  }

  lemma OpeningIsClients(cfg: Config, ms: seq<byte>, reserved: byte, a: Address, p: port, rest: seq<byte>)
    requires Acceptable(cfg, ms) && Encodable(a)
    ensures ClientOpening(cfg, ms, reserved, a, p) == OpeningOctets(cfg, ms) + EncodeRequest(CONNECT, reserved, a, p)
  {
  }

  /** For every split of the opening of a client that the code serves and its CONNECT request for an IPv4 address, one
      host is dialled, its text reads back to octets 4 to 7 of the request, the port is that of octets 8 and 9, and the
      client has got exactly the answer to its opening. */
  lemma ConnectDialsIPv4(v: Variant, cfg: Config, ms: seq<byte>, reserved: byte, q: Quad, p: port, rest: seq<byte>,
                         chunks: seq<seq<byte>>)
    requires Served(v, cfg, ms, rest)
    requires ReadsOf(chunks, OpeningOctets(cfg, ms) + ConnectIPv4(reserved, q, p) + rest)
    ensures var s := C.ReadAll(v, cfg, Fresh(), chunks);
            Live(s) && s.peer.Dialling? && |s.dials| == 1
            && Decimal.ReadDotted(s.dials[0].host) == [q[0], q[1], q[2], q[3]] && s.dials[0].port == p
            && Wire(s.sent) == OpeningAnswer(cfg, ms)
  {
    ConnectOctets(reserved, q, [], p);
    OpeningIsClients(cfg, ms, reserved, IPv4(q), p, rest);
    Decimal.DottedLength(q);
    Decimal.DottedReadsBack(q);
    ClientDials(v, cfg, ms, reserved, IPv4(q), p, rest, chunks);
    OpeningWire(cfg, ms);
  }

  /** The same for a domain, which is dialled as it stands. */
  lemma ConnectDialsDomain(v: Variant, cfg: Config, ms: seq<byte>, reserved: byte, name: seq<byte>, p: port,
                           rest: seq<byte>, chunks: seq<seq<byte>>)
    requires Served(v, cfg, ms, rest) && 0 < |name| < 256 && 0 !in name
    requires ReadsOf(chunks, OpeningOctets(cfg, ms) + ConnectDomain(reserved, name, p) + rest)
    ensures var s := C.ReadAll(v, cfg, Fresh(), chunks);
            Live(s) && s.peer.Dialling? && s.dials == [Endpoint(name, p)] && Wire(s.sent) == OpeningAnswer(cfg, ms)
  {
    ConnectOctets(reserved, [0, 0, 0, 0], name, p);
    OpeningIsClients(cfg, ms, reserved, Domain(name), p, rest);
    CStrOfNulFree(name);
    ClientDials(v, cfg, ms, reserved, Domain(name), p, rest, chunks);
    OpeningWire(cfg, ms);
  }
}
