/** The tunnel's requests and replies read piece by piece: what the two handlers make of every split of the octets. */
module TunnelFeeding {
  import opened Bytes
  import opened PeerConnector
  import opened Readings
  import opened DataChannel
  import opened TunnelCodec
  import opened TunnelSides

  predicate NonEmpty(chunks: seq<seq<byte>>) {
    forall i :: 0 <= i < |chunks| ==> chunks[i] != []
  }

  lemma SplitLast(chunks: seq<seq<byte>>)
    requires chunks != []
    ensures chunks == chunks[..|chunks| - 1] + [chunks[|chunks| - 1]]
    ensures Flat(chunks) == Flat(chunks[..|chunks| - 1]) + chunks[|chunks| - 1]
  {
    var init, last := chunks[..|chunks| - 1], chunks[|chunks| - 1];
    assert chunks == init + [last];
    FlatPush(init, last);
  }

  // ---------------------------------------------------------------- the server connector

  function ServerFed(v: Variant, s: Server, chunk: seq<byte>): Server {
    ServerReadyRead(v, s.(data := OnMessage(s.data, chunk)))
  }

  /** One readyRead for each chunk. */
  function FeedServer(v: Variant, s: Server, chunks: seq<seq<byte>>): Server {
    if chunks == [] then s else ServerFed(v, FeedServer(v, s, chunks[..|chunks| - 1]), chunks[|chunks| - 1])
  }

  predicate CanCarry(v: Variant, host: seq<byte>) {
    |host| <= MaxHost(v) && 0 !in host
  }

  /** Before the request is complete nothing happens, whatever the split. */
  lemma {:induction false} RequestAwaited(v: Variant, host: seq<byte>, p: port, chunks: seq<seq<byte>>)
    requires CanCarry(v, host) && Flat(chunks) <= EncodeRequest(host, p) && Flat(chunks) != EncodeRequest(host, p)
    ensures FeedServer(v, NewServer(), chunks) == NewServer().(buffer := Flat(chunks))
  {
    if chunks == [] {
    } else {
      var frame := EncodeRequest(host, p);
      var init, last := chunks[..|chunks| - 1], chunks[|chunks| - 1];
      SplitLast(chunks);
      assert Flat(init) <= frame && |Flat(init)| < |frame|;
      RequestAwaited(v, host, p, init);
      var k := |Flat(chunks)|;
      assert Flat(chunks) == frame[..k];
      PrefixWaits(v, host, p, k);
      assert [] + last == last;
    }
  }

  /** For every split of a request into pieces that are not empty, the target is dialled once, by the last piece, and
      it is the one requested. */
  lemma RequestFedInPieces(v: Variant, host: seq<byte>, p: port, chunks: seq<seq<byte>>)
    requires CanCarry(v, host) && NonEmpty(chunks) && Flat(chunks) == EncodeRequest(host, p)
    ensures var s := FeedServer(v, NewServer(), chunks);
            s.target.Dialled? && s.dials == [Endpoint(host, p)] && !s.trapped && !s.crashed && s.signals == []
    ensures forall k :: 0 <= k < |chunks| ==> FeedServer(v, NewServer(), chunks[..k]).dials == []
  {
    LastPieceDials(v, host, p, chunks);
    forall k | 0 <= k < |chunks|
      ensures FeedServer(v, NewServer(), chunks[..k]).dials == []
    {
      FewerPiecesWait(v, host, p, chunks, k);
    }
  }

  lemma LastPieceDials(v: Variant, host: seq<byte>, p: port, chunks: seq<seq<byte>>)
    requires CanCarry(v, host) && NonEmpty(chunks) && Flat(chunks) == EncodeRequest(host, p)
    ensures var s := FeedServer(v, NewServer(), chunks);
            s.target.Dialled? && s.dials == [Endpoint(host, p)] && !s.trapped && !s.crashed && s.signals == []
  {
    var frame := EncodeRequest(host, p);
    var init, last := chunks[..|chunks| - 1], chunks[|chunks| - 1];
    SplitLast(chunks);
    RequestAwaited(v, host, p, init);
    RequestRoundTrip(v, host, p, []);
    assert frame + [] == frame;
    assert [] + last == last;
  }

  lemma FewerPiecesWait(v: Variant, host: seq<byte>, p: port, chunks: seq<seq<byte>>, k: nat)
    requires CanCarry(v, host) && NonEmpty(chunks) && Flat(chunks) == EncodeRequest(host, p) && k < |chunks|
    ensures FeedServer(v, NewServer(), chunks[..k]).dials == []
  {
    assert chunks == chunks[..k] + chunks[k..];
    FlatAppend(chunks[..k], chunks[k..]);
    assert chunks[k..][0] != [];
    RequestAwaited(v, host, p, chunks[..k]);
  }

  // ---------------------------------------------------------------- the client connector

  function ClientFed(v: Variant, c: Client, chunk: seq<byte>): Client {
    ClientReadyRead(v, c.(data := OnMessage(c.data, chunk)))
  }

  function FeedClient(v: Variant, c: Client, chunks: seq<seq<byte>>): Client {
    if chunks == [] then c else ClientFed(v, FeedClient(v, c, chunks[..|chunks| - 1]), chunks[|chunks| - 1])
  }

  /** A client connector that waits for a reply, and has read nothing of it. */
  predicate Expecting(c: Client) {
    c.mode.Connect? && c.buffer == [] && c.data == [] && c.signals == [] && c.lost == [] && c.given == [] && !c.crashed
  }

  lemma {:induction false} ReplyAwaited(v: Variant, c: Client, host: seq<byte>, p: port, chunks: seq<seq<byte>>)
    requires Expecting(c) && CanCarry(v, host)
    requires Flat(chunks) <= EncodeReply(0, host, p) && Flat(chunks) != EncodeReply(0, host, p)
    ensures FeedClient(v, c, chunks) == c.(buffer := Flat(chunks))
  {
    if chunks == [] {
    } else {
      var frame := EncodeReply(0, host, p);
      var init, last := chunks[..|chunks| - 1], chunks[|chunks| - 1];
      SplitLast(chunks);
      assert Flat(init) <= frame && |Flat(init)| < |frame|;
      ReplyAwaited(v, c, host, p, init);
      var k := |Flat(chunks)|;
      assert Flat(chunks) == frame[..k];
      PrefixWaits(v, host, p, k);
      assert [] + last == last;
    }
  }

  /** The client connector has found the reply, and read `rest` behind it. */
  predicate Found(v: Variant, c: Client, host: seq<byte>, p: port, rest: seq<byte>) {
    c.mode.Forword? && c.bindHost == host && c.bindPort == p && c.signals == [SigConnected] && c.data == []
    && !c.crashed && c.lost + c.given == rest && (v.Intended? ==> c.lost == [])
  }

  lemma ReplyFound(v: Variant, c: Client, host: seq<byte>, p: port, rest: seq<byte>, pre: seq<byte>, last: seq<byte>)
    requires Expecting(c) && CanCarry(v, host) && pre + last == EncodeReply(0, host, p) + rest
    ensures Found(v, ClientFed(v, c.(buffer := pre), last), host, p, rest)
  {
    ReplyRoundTrip(v, host, p, rest);
    assert [] + last == last;
    assert rest + [] == rest && [] + rest == rest;
  }

  lemma MoreRead(v: Variant, c: Client, host: seq<byte>, p: port, rest: seq<byte>, chunk: seq<byte>)
    requires Found(v, c, host, p, rest)
    ensures Found(v, ClientFed(v, c, chunk), host, p, rest + chunk)
  {
    assert [] + chunk == chunk;
    assert c.lost + (c.given + chunk) == c.lost + c.given + chunk;
  }

  /** For every split of a success reply with anything behind it, the client connector finds the host and port that
      were encoded, signals once, and hands over what stands behind, but for what the written code clears. */
  lemma {:induction false} ReplyFedInPieces(v: Variant, c: Client, host: seq<byte>, p: port, rest: seq<byte>,
                                            chunks: seq<seq<byte>>)
    requires Expecting(c) && CanCarry(v, host) && Flat(chunks) == EncodeReply(0, host, p) + rest
    ensures Found(v, FeedClient(v, c, chunks), host, p, rest)
    decreases |chunks|
  {
    if chunks == [] {
      assert false;
    } else {
      var frame := EncodeReply(0, host, p);
      var init, last := chunks[..|chunks| - 1], chunks[|chunks| - 1];
      SplitLast(chunks);
      var k := |Flat(init)|;
      if k < |frame| {
        assert Flat(init) == (frame + rest)[..k] == frame[..k];
        ReplyAwaited(v, c, host, p, init);
        ReplyFound(v, c, host, p, rest, Flat(init), last);
      } else {
        var more := rest[..k - |frame|];
        assert Flat(init) == (frame + rest)[..k] == frame + more;
        assert rest == more + last;
        ReplyFedInPieces(v, c, host, p, more, init);
        MoreRead(v, FeedClient(v, c, init), host, p, more, last);
      }
    }
  }

  /** For every split of an error reply into pieces that are not empty, the client connector signals exactly the error
      that was encoded, on the last piece. */
  lemma ErrorFedInPieces(v: Variant, c: Client, err: int, chunks: seq<seq<byte>>)
    requires Expecting(c) && -128 <= err < 128 && err != 0
    requires NonEmpty(chunks) && Flat(chunks) == EncodeReply(err, [], 0)
    ensures FeedClient(v, c, chunks).signals == [SigError(err)]
  {
    var init, last := chunks[..|chunks| - 1], chunks[|chunks| - 1];
    SplitLast(chunks);
    ErrorAwaited(v, c, init);
    ErrorRoundTrip(v, err, [], 0, []);
    assert Flat(chunks) + [] == Flat(chunks);
    assert [] + last == last;
  }

  lemma {:induction false} ErrorAwaited(v: Variant, c: Client, chunks: seq<seq<byte>>)
    requires Expecting(c) && |Flat(chunks)| < HEAD
    ensures FeedClient(v, c, chunks) == c.(buffer := Flat(chunks))
  {
    if chunks == [] {
    } else {
      var init, last := chunks[..|chunks| - 1], chunks[|chunks| - 1];
      SplitLast(chunks);
      ErrorAwaited(v, c, init);
      ShortRead(v, c, Flat(init), last);
    }
  }

  lemma ShortRead(v: Variant, c: Client, pre: seq<byte>, chunk: seq<byte>)
    requires Expecting(c) && |pre| + |chunk| < HEAD
    ensures ClientFed(v, c.(buffer := pre), chunk) == c.(buffer := pre + chunk)
  {
    var d := c.(buffer := pre);
    assert d.data + chunk == chunk;
    assert DecodeReply(v, pre + chunk) == More;
  }

  /** A request of another version or command is never dialled: once its head is there, every read signals error -1. */
  lemma OtherRequestsRefused(v: Variant, s: Server, chunk: seq<byte>)
    requires s.mode.Connect?
    requires var buf := s.buffer + s.data + chunk; |buf| >= 5 && (buf[0] != 0 || buf[1] != 1)
    ensures var t := ServerFed(v, s, chunk);
            t.dials == s.dials && t.posted == s.posted && t.target == s.target
            && t.signals == s.signals + [Failure(-1)]
  {
    assert s.buffer + (s.data + chunk) == s.buffer + s.data + chunk;
  }
}
