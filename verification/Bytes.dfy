/** Octets, byte order and C strings, as the C++ code sees them. */
module Bytes {

  type byte = b: int | 0 <= b < 256

  /** A 16-bit port number (quint16). */
  type port = p: int | 0 <= p < 0x1_0000

  datatype Option<+T> = None | Some(value: T)

  /** The value of an octet read through a plain (signed) `char`. */
  function Signed(b: byte): int {
    if b < 128 then b else b - 256
  }

  /** The octet that storing an `int` into a `char` leaves behind. */
  function Octet(n: int): byte {
    n % 256
  }

  function High(p: port): byte { p / 256 }

  function Low(p: port): byte { p % 256 }

  /** A port in network byte order (qToBigEndian). */
  function PortBytes(p: port): seq<byte> {
    [High(p), Low(p)]
  }

  /** qFromBigEndian<quint16>. */
  function PortOf(hi: byte, lo: byte): port {
    hi * 256 + lo
  }

  lemma PortRoundTrip(p: port)
    ensures PortOf(High(p), Low(p)) == p
  {
  }

  /** What `std::string::c_str()` leaves of a buffer: everything before the first NUL. */
  function CStr(s: seq<byte>): seq<byte> {
    if s == [] || s[0] == 0 then [] else [s[0]] + CStr(s[1..])
  }

  /** It is the longest prefix without a NUL. */
  lemma {:induction false} CStrIsPrefix(s: seq<byte>)
    ensures CStr(s) <= s
    ensures 0 !in CStr(s)
    ensures |CStr(s)| < |s| ==> s[|CStr(s)|] == 0
  {
    if s != [] && s[0] != 0 {
      CStrIsPrefix(s[1..]);
    }
  }

  lemma CStrOfNulFree(s: seq<byte>)
    requires 0 !in s
    ensures CStr(s) == s
  {
    CStrIsPrefix(s);
  }

  /** The concatenation of a list of chunks, messages or frames. */
  function Flat<T>(parts: seq<seq<T>>): seq<T> {
    if parts == [] then [] else parts[0] + Flat(parts[1..])
  }

  lemma {:induction false} FlatAppend<T>(parts: seq<seq<T>>, more: seq<seq<T>>)
    ensures Flat(parts + more) == Flat(parts) + Flat(more)
  {
    if parts == [] {
      assert parts + more == more;
    } else {
      assert (parts + more)[1..] == parts[1..] + more;
      FlatAppend(parts[1..], more);
    }
  }

  lemma FlatOne<T>(part: seq<T>)
    ensures Flat([part]) == part
  {
    assert [part][1..] == [];
  }

  lemma FlatPush<T>(parts: seq<seq<T>>, part: seq<T>)
    ensures Flat(parts + [part]) == Flat(parts) + part
  {
    FlatAppend(parts, [part]);
    FlatOne(part);
  }

  /** A slice of a buffer does not depend on what is appended later. */
  lemma SliceStays(buf: seq<byte>, more: seq<byte>, i: nat, j: nat)
    requires i <= j <= |buf|
    ensures (buf + more)[i..j] == buf[i..j]
  {
  }
}
