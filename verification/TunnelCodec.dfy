/** The length-prefixed request and reply of the ICE tunnel (strClientRequst and strReply). */
module TunnelCodec {
  import opened Bytes
  import opened Readings

  const HEAD := 5

  /** slotDataChannelConnected: version 0, command 1 (connect), port, length, host. The length is stored in a char. */
  function EncodeRequest(host: seq<byte>, p: port): seq<byte> {
    [0, 1] + PortBytes(p) + [Octet(|host|)] + host
  }

  function Zeros(n: nat): seq<byte> {
    var zero: byte := 0;
    seq(n, i => zero)
  }

  /** CPeerConnectorIceServer::Reply: the bind address travels only with a success; a failure carries zeros. */
  function EncodeReply(err: int, host: seq<byte>, p: port): seq<byte> {
    if err == 0 then [0, 0] + PortBytes(p) + [Octet(|host|)] + host
    else [0, Octet(err), 0, 0, 0] + Zeros(|host|)
  }

  /** A length octet: as written it is read as a signed char. */
  function Length(v: Variant, b: byte): int {
    if v.Written? then Signed(b) else b
  }

  datatype Decoded =
    | More                                        // read on
    | Refuse                                      // another version or command
    | Crash                                       // std::string of a negative length
    | Host(host: seq<byte>, port: port, len: nat)
    | Error(code: int)

  /** The body behind the head: both directions read it alike. */
  function DecodeBody(v: Variant, buf: seq<byte>): Decoded
    requires |buf| >= HEAD
  {
    var n := Length(v, buf[4]);
    if |buf| < HEAD + n then More
    else if n < 0 then Crash
    else Host(CStr(buf[HEAD..HEAD + n]), PortOf(buf[2], buf[3]), HEAD + n)
  }

  /** CPeerConnectorIceServer::OnReciveConnectRequst. */
  function DecodeRequest(v: Variant, buf: seq<byte>): Decoded {
    if |buf| < HEAD then More
    else if buf[0] != 0 || buf[1] != 1 then Refuse
    else DecodeBody(v, buf)
  }

  /** CPeerConnectorIceClient::OnConnectionReply. */
  function DecodeReply(v: Variant, buf: seq<byte>): Decoded {
    if |buf| < HEAD then More
    else if buf[1] == 0 then DecodeBody(v, buf)
    else Error(Signed(buf[1]))
  }

  /** The longest host whose length survives the length octet. */
  function MaxHost(v: Variant): nat {
    if v.Written? then 127 else 255
  }

  lemma BodyRoundTrip(v: Variant, a: byte, b: byte, host: seq<byte>, p: port, rest: seq<byte>)
    requires |host| <= MaxHost(v) && 0 !in host
    ensures var buf := [a, b] + PortBytes(p) + [Octet(|host|)] + host + rest;
            DecodeBody(v, buf) == Host(host, p, HEAD + |host|) && buf[HEAD + |host|..] == rest
  {
    var buf := [a, b] + PortBytes(p) + [Octet(|host|)] + host + rest;
    PortRoundTrip(p);
    assert buf[HEAD..HEAD + |host|] == host;
    CStrOfNulFree(host);
  }

  /** Decoding the encoded request returns the same host and port, whatever follows. */
  lemma RequestRoundTrip(v: Variant, host: seq<byte>, p: port, rest: seq<byte>)
    requires |host| <= MaxHost(v) && 0 !in host
    ensures var frame := EncodeRequest(host, p);
            DecodeRequest(v, frame + rest) == Host(host, p, |frame|) && (frame + rest)[|frame|..] == rest
  {
    BodyRoundTrip(v, 0, 1, host, p, rest);
    assert EncodeRequest(host, p) + rest == [0, 1] + PortBytes(p) + [Octet(|host|)] + host + rest;
  }

  lemma ReplyRoundTrip(v: Variant, host: seq<byte>, p: port, rest: seq<byte>)
    requires |host| <= MaxHost(v) && 0 !in host
    ensures var frame := EncodeReply(0, host, p);
            DecodeReply(v, frame + rest) == Host(host, p, |frame|) && (frame + rest)[|frame|..] == rest
  {
    BodyRoundTrip(v, 0, 0, host, p, rest);
    assert EncodeReply(0, host, p) + rest == [0, 0] + PortBytes(p) + [Octet(|host|)] + host + rest;
  }

  /** Every connector error, -1 included, comes out of its one-octet field as it went in. */
  lemma ErrorRoundTrip(v: Variant, err: int, host: seq<byte>, p: port, rest: seq<byte>)
    requires -128 <= err < 128 && err != 0
    ensures DecodeReply(v, EncodeReply(err, host, p) + rest) == Error(err)
  {
  }

  /** Every proper prefix of a request or a success reply asks for more input. */
  lemma PrefixWaits(v: Variant, host: seq<byte>, p: port, k: nat)
    requires |host| <= MaxHost(v) && 0 !in host
    requires k < |EncodeRequest(host, p)|
    ensures DecodeRequest(v, EncodeRequest(host, p)[..k]) == More
    ensures DecodeReply(v, EncodeReply(0, host, p)[..k]) == More
  {
    var q, r := EncodeRequest(host, p), EncodeReply(0, host, p);
    assert |q| == |r| == HEAD + |host|;
    if k >= HEAD {
      assert q[..k][4] == |host| && r[..k][4] == |host|;
    }
  }

  /** 127 octets is the exact bound of the written code: a longer host crashes the server instead of being dialled. */
  lemma HostBoundExact(host: seq<byte>, p: port)
    requires |host| < 256 && 0 !in host
    ensures DecodeRequest(Written, EncodeRequest(host, p)) == Host(host, p, HEAD + |host|) <==> |host| <= 127
    ensures |host| > 127 ==> DecodeRequest(Written, EncodeRequest(host, p)) == Crash
  {
    var frame := EncodeRequest(host, p);
    assert frame[4] == |host|;
    if |host| <= 127 {
      RequestRoundTrip(Written, host, p, []);
      assert frame + [] == frame;
    }
  }

  /** The octets on the channel: version and command of a request, or version and result of a reply; the port, high
      octet first; the length of the host, and the host. A failure carries its code, two's complement, and zeros. */
  lemma FrameOctets(host: seq<byte>, p: port, err: int)
    requires |host| < 256 && -128 <= err < 128 && err != 0
    ensures EncodeRequest(host, p) == [0, 1, p / 256, p % 256, |host|] + host
    ensures EncodeReply(0, host, p) == [0, 0, p / 256, p % 256, |host|] + host
    ensures EncodeReply(err, [], 0) == [0, if err < 0 then 256 + err else err, 0, 0, 0]
  {
  }
}
