/** The frames of RFC 1928 (sections 3, 4, 6) and RFC 1929 (section 2) as CProxySocks5 reads and writes them. */
module Socks5Frames {
  import opened Bytes
  import opened Readings
  import Decimal

  const VERSION: byte := 5
  const NO_AUTHENTICATION: byte := 0
  const USER_PASSWORD: byte := 2
  const NO_ACCEPTABLE: byte := 255

  // ---------------------------------------------------------------- method negotiation

  datatype Methods = Methods(offered: seq<byte>, len: int)

  /** The method count; the written code reads it through a signed char. */
  function Count(v: Variant, b: byte): int {
    if v.Written? then Signed(b) else b
  }

  /** The method frame at the front of `buf` (the version octet is already gone), or None to read on. */
  function ParseMethods(v: Variant, buf: seq<byte>): Option<Methods> {
    if buf == [] then None else
    var count := Count(v, buf[0]);
    if |buf| < 1 + count then None
    else Some(Methods(if count <= 0 then [] else buf[1..1 + count], 1 + count))
  }

  /** The offered method the server picks. */
  function Select(supported: seq<byte>, offered: seq<byte>): byte {
    if offered == [] then NO_ACCEPTABLE
    else if offered[0] in supported then offered[0]
    else Select(supported, offered[1..])
  }

  /** `offered[i]` is the first offered method that is supported. */
  predicate FirstAt(supported: seq<byte>, offered: seq<byte>, i: int) {
    0 <= i < |offered| && offered[i] in supported && forall j :: 0 <= j < i ==> offered[j] !in supported
  }

  /** The choice is the first offered method that the server supports, and 0xFF when it supports none of them. */
  lemma {:induction false} SelectIsFirst(supported: seq<byte>, offered: seq<byte>)
    ensures (forall i :: 0 <= i < |offered| ==> offered[i] !in supported) ==> Select(supported, offered) == NO_ACCEPTABLE
    ensures forall i :: FirstAt(supported, offered, i) ==> Select(supported, offered) == offered[i]
    ensures (exists i :: 0 <= i < |offered| && offered[i] in supported) ==> exists i :: FirstAt(supported, offered, i)
  {
    if offered == [] {
    } else {
      var rest := offered[1..];
      SelectIsFirst(supported, rest);
      if offered[0] in supported {
        assert FirstAt(supported, offered, 0);
      } else {
        forall i | 0 <= i < |rest|
          ensures FirstAt(supported, rest, i) ==> FirstAt(supported, offered, i + 1)
        {
          if FirstAt(supported, rest, i) {
            forall j | 0 <= j < i + 1
              ensures offered[j] !in supported
            {
              assert j > 0 ==> rest[j - 1] == offered[j];
            }
          }
        }
        forall i | FirstAt(supported, offered, i)
          ensures FirstAt(supported, rest, i - 1)
        {
          forall j | 0 <= j < i - 1
            ensures rest[j] !in supported
          {
            assert rest[j] == offered[j + 1];
          }
        }
        if i :| 0 <= i < |offered| && offered[i] in supported {
          assert rest[i - 1] == offered[i];
        }
      }
    }
  }

  function EncodeMethods(ms: seq<byte>): seq<byte>
    requires |ms| < 256
  {
    [|ms|] + ms
  }

  /** A method list reads back exactly, whatever follows it, for as many methods as the count octet can say:
      255 as intended, 127 as written. */
  lemma MethodsRoundTrip(v: Variant, ms: seq<byte>, rest: seq<byte>)
    requires |ms| < if v.Written? then 128 else 256
    ensures ParseMethods(v, EncodeMethods(ms) + rest) == Some(Methods(ms, 1 + |ms|))
    ensures (EncodeMethods(ms) + rest)[1 + |ms|..] == rest
  {
    var buf := EncodeMethods(ms) + rest;
    assert buf[1..1 + |ms|] == ms;
  }

  lemma MethodsExtend(v: Variant, buf: seq<byte>, more: seq<byte>)
    requires ParseMethods(v, buf).Some?
    ensures ParseMethods(v, buf + more) == ParseMethods(v, buf)
  {
    var count := Count(v, buf[0]);
    if count > 0 {
      assert (buf + more)[1..1 + count] == buf[1..1 + count];
    }
  }

  // ---------------------------------------------------------------- user name and password

  datatype Login =
    | BadLoginVersion
    | Login(user: seq<byte>, password: seq<byte>, len: nat)

  /** The RFC 1929 request at the front of `buf`, or None to read on. The texts end at a NUL. */
  function ParseLogin(buf: seq<byte>): Option<Login> {
    if |buf| < 2 then None
    else if buf[0] != 1 then Some(BadLoginVersion)
    else
      var nUser: int := buf[1];
      if |buf| < nUser + 3 then None
      else
        var nPassword: int := buf[nUser + 2];
        if |buf| < nUser + 3 + nPassword then None
        else Some(Login(CStr(buf[2..2 + nUser]), CStr(buf[nUser + 3..nUser + 3 + nPassword]), 3 + nUser + nPassword))
  }

  /** The written guard waits for one octet too few before it reads the password length. Whatever octet lies
      behind the buffer, the next guard then asks for more input, so both guards accept the same buffers. */
  lemma ShortLoginGuardIsHarmless(buf: seq<byte>, stray: byte)
    requires |buf| >= 2 && buf[0] == 1
    ensures var nUser: int := buf[1];
            var nPassword: int := if nUser + 2 < |buf| then buf[nUser + 2] else stray;
            (|buf| >= nUser + 2 && |buf| >= nUser + 3 + nPassword) <==> ParseLogin(buf).Some?
  {
  }

  function EncodeLogin(user: seq<byte>, password: seq<byte>): seq<byte>
    requires |user| < 256 && |password| < 256
  {
    [1, |user|] + user + [|password|] + password
  }

  lemma LoginRoundTrip(user: seq<byte>, password: seq<byte>, rest: seq<byte>)
    requires |user| < 256 && |password| < 256
    requires 0 !in user && 0 !in password
    ensures var frame := EncodeLogin(user, password);
            ParseLogin(frame + rest) == Some(Login(user, password, |frame|))
            && (frame + rest)[|frame|..] == rest
  {
    var n, m := |user|, |password|;
    var buf := EncodeLogin(user, password) + rest;
    assert buf[n + 2] == m;
    assert buf[2..2 + n] == user;
    assert buf[n + 3..n + 3 + m] == password;
    CStrOfNulFree(user);
    CStrOfNulFree(password);
  }

  lemma LoginExtend(buf: seq<byte>, more: seq<byte>)
    requires ParseLogin(buf).Some?
    ensures ParseLogin(buf + more) == ParseLogin(buf)
    ensures ParseLogin(buf).value.Login? ==> ParseLogin(buf).value.len <= |buf|
  {
    if buf[0] == 1 {
      var all := buf + more;
      var n: int := buf[1];
      var m: int := buf[n + 2];
      assert all[0] == 1 && all[1] == n && all[n + 2] == m;
      assert |buf| >= n + 3 + m;
      SliceStays(buf, more, 2, 2 + n);
      SliceStays(buf, more, n + 3, n + 3 + m);
    }
  }

  // ---------------------------------------------------------------- the request

  datatype Address =
    | IPv4(quad: Quad)
    | Domain(name: seq<byte>)

  type Quad = q: seq<byte> | |q| == 4 witness [0, 0, 0, 0]
  type Group = g: seq<byte> | |g| == 16 witness [0, 0, 0, 0, 0, 0, 0, 0, 0, 0, 0, 0, 0, 0, 0, 0]

  /** The host text that is dialled. */
  function HostText(a: Address): seq<byte> {
    match a
    case IPv4(q) => Decimal.Dotted(q)
    case Domain(name) => CStr(name)
  }

  datatype Request =
    | OtherVersion
    | OtherAddressType
    | Target(command: byte, address: Address, port: port, len: nat)

  /** The request at the front of `buf`, or None to read on. An IPv6 request is awaited in full and then
      treated as an unsupported address type, as the missing `break` has it. */
  function ParseRequest(buf: seq<byte>): Option<Request> {
    if |buf| < 4 then None
    else if buf[0] != VERSION then Some(OtherVersion)
    else if buf[3] == 1 then
      if |buf| < 10 then None
      else Some(Target(buf[1], IPv4(buf[4..8]), PortOf(buf[8], buf[9]), 10))
    else if buf[3] == 3 then
      if |buf| < 6 then None
      else
        var n: int := buf[4];
        if |buf| < 7 + n then None
        else Some(Target(buf[1], Domain(buf[5..5 + n]), PortOf(buf[5 + n], buf[6 + n]), 7 + n))
    else if buf[3] == 4 && |buf| < 22 then None
    else Some(OtherAddressType)
  }

  predicate Encodable(a: Address) {
    a.Domain? ==> |a.name| < 256
  }

  function EncodeRequest(command: byte, reserved: byte, a: Address, p: port): seq<byte>
    requires Encodable(a)
  {
    match a
    case IPv4(q) => [VERSION, command, reserved, 1] + q + PortBytes(p)
    case Domain(name) => [VERSION, command, reserved, 3, |name|] + name + PortBytes(p)
  }

  /** Decoding inverts encoding and takes exactly the frame, whatever follows it. */
  lemma RequestRoundTrip(command: byte, reserved: byte, a: Address, p: port, rest: seq<byte>)
    requires Encodable(a)
    ensures var frame := EncodeRequest(command, reserved, a, p);
            ParseRequest(frame + rest) == Some(Target(command, a, p, |frame|))
            && (frame + rest)[|frame|..] == rest
  {
    PortRoundTrip(p);
    var buf := EncodeRequest(command, reserved, a, p) + rest;
    match a {
      case IPv4(q) =>
        assert buf[4..8] == q;
      case Domain(name) =>
        assert buf[4] == |name|;
        assert buf[5..5 + |name|] == name;
        assert buf[5 + |name|] == High(p) && buf[6 + |name|] == Low(p);
    }
  }

  /** Conversely, whatever is accepted is the encoding of what was read. */
  lemma AcceptedRequestIsEncoding(buf: seq<byte>)
    requires ParseRequest(buf).Some? && ParseRequest(buf).value.Target?
    ensures var t := ParseRequest(buf).value;
            Encodable(t.address) && t.len <= |buf|
            && buf[..t.len] == EncodeRequest(t.command, buf[2], t.address, t.port)
  {
    var t := ParseRequest(buf).value;
    assert High(PortOf(buf[t.len - 2], buf[t.len - 1])) == buf[t.len - 2];
    assert Low(PortOf(buf[t.len - 2], buf[t.len - 1])) == buf[t.len - 1];
    var frame := EncodeRequest(t.command, buf[2], t.address, t.port);
    assert |frame| == t.len;
    forall i | 0 <= i < t.len
      ensures buf[i] == frame[i]
    {
    }
    assert buf[..t.len] == frame;
  }

  lemma RequestExtend(buf: seq<byte>, more: seq<byte>)
    requires ParseRequest(buf).Some?
    ensures ParseRequest(buf + more) == ParseRequest(buf)
    ensures ParseRequest(buf).value.Target? ==> 0 < ParseRequest(buf).value.len <= |buf|
  {
    if |buf| >= 10 && buf[3] == 1 {
      assert (buf + more)[4..8] == buf[4..8];
    }
    if |buf| >= 6 && buf[3] == 3 && |buf| - 7 >= buf[4] {
      assert (buf + more)[5..5 + buf[4]] == buf[5..5 + buf[4]];
    }
  }

  lemma PrefixAccepts(frame: seq<byte>, k: nat)
    requires k < |frame| && ParseRequest(frame[..k]).Some?
    ensures ParseRequest(frame).Some?
    ensures ParseRequest(frame).value.Target? ==> ParseRequest(frame).value.len < |frame|
  {
    RequestExtend(frame[..k], frame[k..]);
    assert frame[..k] + frame[k..] == frame;
  }

  /** Every proper prefix of a request frame asks for more input. */
  lemma RequestPrefixWaits(command: byte, reserved: byte, a: Address, p: port, k: nat)
    requires Encodable(a)
    requires k < |EncodeRequest(command, reserved, a, p)|
    ensures ParseRequest(EncodeRequest(command, reserved, a, p)[..k]) == None
  {
    var frame := EncodeRequest(command, reserved, a, p);
    RequestRoundTrip(command, reserved, a, p, []);
    assert frame + [] == frame;
    if ParseRequest(frame[..k]).Some? {
      PrefixAccepts(frame, k);
    }
  }

  /** No request frame is a proper prefix of another one. */
  lemma RequestsPrefixFree(c: byte, r: byte, a: Address, p: port, c': byte, r': byte, a': Address, p': port)
    requires Encodable(a) && Encodable(a')
    requires EncodeRequest(c, r, a, p) <= EncodeRequest(c', r', a', p')
    ensures c == c' && r == r' && a == a' && p == p'
  {
    var f, f' := EncodeRequest(c, r, a, p), EncodeRequest(c', r', a', p');
    RequestRoundTrip(c, r, a, p, f'[|f|..]);
    assert f + f'[|f|..] == f';
    RequestRoundTrip(c', r', a', p', []);
    assert f' + [] == f';
    assert f[2] == f'[2];
  }

  /** The text dialled for an IPv4 request reads back to the four octets of the request, in their order, and so
      determines them; a domain without a NUL is dialled as it stands. */
  lemma DialledText(q: Quad, name: seq<byte>)
    requires 0 !in name
    ensures Decimal.ReadDotted(HostText(IPv4(q))) == [q[0], q[1], q[2], q[3]]
    ensures forall part :: part in Decimal.Parts(HostText(IPv4(q))) ==> Decimal.IsNumber(part)
    ensures HostText(Domain(name)) == name
  {
    Decimal.DottedReadsBack(q);
    CStrOfNulFree(name);
  }

  // ---------------------------------------------------------------- the reply

  datatype HostAddress =
    | NullAddress
    | V4(quad: Quad)
    | V6(group: Group)

  predicate AllZero(s: seq<byte>) {
    forall i :: 0 <= i < |s| ==> s[i] == 0
  }

  /** QHostAddress::toIPv4Address with its `ok` flag: IPv4, IPv4-mapped IPv6, and the unspecified address. */
  function ToIPv4(a: HostAddress): Option<Quad> {
    match a
    case NullAddress => None
    case V4(q) => Some(q)
    case V6(g) =>
      if AllZero(g[..10]) && g[10] == 255 && g[11] == 255 then Some(g[12..])
      else if AllZero(g) then Some([0, 0, 0, 0])
      else None
  }

  /** The address a reply names: an unknown address becomes 0.0.0.0, a mapped one its IPv4 form. */
  function Named(a: HostAddress): HostAddress {
    if a == NullAddress then V4([0, 0, 0, 0])
    else if ToIPv4(a).Some? then V4(ToIPv4(a).value)
    else a
  }

  function AddressType(n: HostAddress): byte {
    if n.V6? then 4 else 1
  }

  function AddressBytes(n: HostAddress): seq<byte> {
    match n
    case NullAddress => [0, 0, 0, 0]
    case V4(q) => q
    case V6(g) => g
  }

  function EncodeReply(version: byte, code: byte, a: HostAddress, p: port): seq<byte> {
    [version, code, 0, AddressType(Named(a))] + AddressBytes(Named(a)) + PortBytes(p)
  }

  datatype Reply = Reply(version: byte, code: byte, address: HostAddress, port: port, len: nat)

  /** How a client reads a reply (section 6 of RFC 1928), IPv4 and IPv6 address types. */
  function DecodeReply(buf: seq<byte>): Option<Reply> {
    if |buf| >= 10 && buf[3] == 1 then
      Some(Reply(buf[0], buf[1], V4(buf[4..8]), PortOf(buf[8], buf[9]), 10))
    else if |buf| >= 22 && buf[3] == 4 then
      Some(Reply(buf[0], buf[1], V6(buf[4..20]), PortOf(buf[20], buf[21]), 22))
    else None
  }

  const UNSPECIFIED: Group := [0, 0, 0, 0, 0, 0, 0, 0, 0, 0, 0, 0, 0, 0, 0, 0]

  /** What an IPv6 address starts with if an IPv4 address is mapped into it. */
  const MAPPED: seq<byte> := [0, 0, 0, 0, 0, 0, 0, 0, 0, 0, 255, 255]

  /** The octets of a reply that names an IPv4 address. */
  function ReplyV4(version: byte, code: byte, q: Quad, p: port): seq<byte> {
    [version, code, 0, 1, q[0], q[1], q[2], q[3], p / 256, p % 256]
  }

  /** The octets of a reply, address by address: an IPv4 address, one mapped into IPv6, no address at all and the
      unspecified address are of type 1, any other IPv6 address is of type 4. */
  lemma ReplyOctets(version: byte, code: byte, q: Quad, g: Group, p: port)
    ensures EncodeReply(version, code, V4(q), p) == ReplyV4(version, code, q, p)
    ensures EncodeReply(version, code, NullAddress, p) == ReplyV4(version, code, [0, 0, 0, 0], p)
    ensures g == MAPPED + q ==>
              EncodeReply(version, code, V6(g), p) == ReplyV4(version, code, q, p)
    ensures g == UNSPECIFIED ==>
              EncodeReply(version, code, V6(g), p) == ReplyV4(version, code, [0, 0, 0, 0], p)
    ensures !(MAPPED <= g) && g != UNSPECIFIED ==>
              EncodeReply(version, code, V6(g), p) == [version, code, 0, 4] + g + [p / 256, p % 256]
  {
    assert q == [q[0], q[1], q[2], q[3]];
    ToIPv4Cases(q, g);
  }

  lemma ToIPv4Cases(q: Quad, g: Group)
    ensures g == MAPPED + q ==> ToIPv4(V6(g)) == Some(q)
    ensures g == UNSPECIFIED ==> ToIPv4(V6(g)) == Some([0, 0, 0, 0])
    ensures !(MAPPED <= g) && g != UNSPECIFIED ==>
              ToIPv4(V6(g)) == None
  {
    if g == MAPPED + q {
      assert g[12..] == q;
    }
    if AllZero(g[..10]) && g[10] == 255 && g[11] == 255 {
      assert forall i :: 0 <= i < 10 ==> g[i] == g[..10][i] == 0;
      assert MAPPED == g[..12];
    }
    if AllZero(g) {
      assert g == UNSPECIFIED;
    }
  }

  /** A client reads back the code, the bound address and the port, and finds the stream right behind. */
  lemma ReplyRoundTrip(version: byte, code: byte, a: HostAddress, p: port, rest: seq<byte>)
    ensures var frame := EncodeReply(version, code, a, p);
            DecodeReply(frame + rest) == Some(Reply(version, code, Named(a), p, |frame|))
            && (frame + rest)[|frame|..] == rest
  {
    PortRoundTrip(p);
    var buf := EncodeReply(version, code, a, p) + rest;
    var n := Named(a);
    assert buf[4..4 + |AddressBytes(n)|] == AddressBytes(n);
    assert n.V4? || n.V6?;
  }

  /** What a client reads back, address by address, with anything behind the reply. */
  lemma ReplyReadsBack(version: byte, code: byte, q: Quad, g: Group, p: port, rest: seq<byte>)
    ensures DecodeReply(EncodeReply(version, code, V4(q), p) + rest) == Some(Reply(version, code, V4(q), p, 10))
    ensures DecodeReply(EncodeReply(version, code, NullAddress, p) + rest)
         == Some(Reply(version, code, V4([0, 0, 0, 0]), p, 10))
    ensures g == MAPPED + q ==>
              DecodeReply(EncodeReply(version, code, V6(g), p) + rest) == Some(Reply(version, code, V4(q), p, 10))
    ensures g == UNSPECIFIED ==>
              DecodeReply(EncodeReply(version, code, V6(g), p) + rest)
              == Some(Reply(version, code, V4([0, 0, 0, 0]), p, 10))
    ensures !(MAPPED <= g) && g != UNSPECIFIED ==>
              DecodeReply(EncodeReply(version, code, V6(g), p) + rest) == Some(Reply(version, code, V6(g), p, 22))
  {
    ToIPv4Cases(q, g);
    ReplyRoundTrip(version, code, V4(q), p, rest);
    ReplyRoundTrip(version, code, NullAddress, p, rest);
    ReplyRoundTrip(version, code, V6(g), p, rest);
  }
}
