/** Decimal printing (std::to_string, QString::number, QHostAddress::toString for IPv4). */
module Decimal {
  import opened Bytes

  function Digit(d: nat): char
    requires d < 10
  {
    '0' + d as char
  }

  predicate IsDigit(c: char) { '0' <= c <= '9' }

  function Show(n: nat): (s: string)
    ensures |s| > 0
    ensures forall i :: 0 <= i < |s| ==> IsDigit(s[i])
  {
    if n < 10 then [Digit(n)] else Show(n / 10) + [Digit(n % 10)]
  }

  /** Reads digits back, most significant first. */
  function Value(s: string): int
  {
    if s == [] then 0 else Value(s[..|s| - 1]) * 10 + (s[|s| - 1] as int - '0' as int)
  }

  lemma {:induction false} ShowValue(n: nat)
    ensures Value(Show(n)) == n
  {
    if n < 10 {
      assert Show(n)[..0] == [];
    } else {
      ShowValue(n / 10);
      var s := Show(n);
      assert s[..|s| - 1] == Show(n / 10);
      assert s[|s| - 1] == Digit(n % 10);
    }
  }

  /** Two numbers never print alike. */
  lemma ShowInjective(a: nat, b: nat)
    requires Show(a) == Show(b)
    ensures a == b
  {
    ShowValue(a);
    ShowValue(b);
  }

  /** The octets of a text whose characters all fit one octet. */
  function Octets(s: string): (r: seq<byte>)
    requires forall i :: 0 <= i < |s| ==> s[i] as int < 256
    ensures |r| == |s|
    ensures forall i :: 0 <= i < |s| ==> r[i] == s[i] as int
  {
    seq(|s|, i requires 0 <= i < |s| => s[i] as int)
  }

  function ShowOctets(n: nat): (r: seq<byte>)
    ensures |r| > 0
    ensures forall i :: 0 <= i < |r| ==> 48 <= r[i] <= 57
  {
    Octets(Show(n))
  }

  const DOT: byte := 46

  /** An IPv4 address as dotted decimal. */
  function Dotted(q: seq<byte>): (r: seq<byte>)
    requires |q| == 4
  {
    ShowOctets(q[0]) + [DOT] + (ShowOctets(q[1]) + [DOT] + (ShowOctets(q[2]) + [DOT] + ShowOctets(q[3])))
  }

  lemma DottedLength(q: seq<byte>)
    requires |q| == 4
    ensures 0 < |Dotted(q)| <= 15
    ensures 0 !in Dotted(q)
  {
    forall k | 0 <= k < 4
      ensures |ShowOctets(q[k])| <= 3
    {
      var n := q[k];
      if 10 <= n {
        assert Show(n) == Show(n / 10) + [Digit(n % 10)];
        if 10 <= n / 10 {
          assert Show(n / 10) == Show(n / 10 / 10) + [Digit(n / 10 % 10)];
        }
      }
    }
  }

  // ---------------------------------------------------------------- reading dotted text

  /** A text cut at its dots (octet 46). */
  function Parts(s: seq<byte>): (ps: seq<seq<byte>>)
    ensures |ps| > 0
  {
    if s == [] then [[]]
    else
      var ps := Parts(s[1..]);
      if s[0] == 46 then [[]] + ps else [[s[0]] + ps[0]] + ps[1..]
  }

  /** Digits as a reader takes them, octet 48 for zero. */
  function NumberOf(part: seq<byte>): int {
    if part == [] then 0
    else
      var digit: int := part[|part| - 1];
      NumberOf(part[..|part| - 1]) * 10 + digit - 48
  }

  /** One or more digits, without a leading zero unless that is all. */
  predicate IsNumber(part: seq<byte>) {
    part != [] && (forall i :: 0 <= i < |part| ==> 48 <= part[i] <= 57) && (|part| > 1 ==> part[0] != 48)
  }

  /** The numbers between the dots. */
  function ReadDotted(s: seq<byte>): seq<int> {
    var ps := Parts(s);
    seq(|ps|, i requires 0 <= i < |ps| => NumberOf(ps[i]))
  }

  lemma {:induction false} PartsAtDot(p: seq<byte>, rest: seq<byte>)
    requires 46 !in p
    ensures Parts(p) == [p]
    ensures Parts(p + [46] + rest) == [p] + Parts(rest)
  {
    var s := p + [46] + rest;
    if p == [] {
      assert s[1..] == rest;
    } else {
      assert s[1..] == p[1..] + [46] + rest;
      PartsAtDot(p[1..], rest);
      assert [p[0]] + p[1..] == p;
    }
  }

  lemma {:induction false} ShowNumber(n: nat)
    ensures NumberOf(ShowOctets(n)) == n && IsNumber(ShowOctets(n))
    ensures n > 0 ==> ShowOctets(n)[0] != 48
  {
    var s := ShowOctets(n);
    if n < 10 {
      assert s == [48 + n];
      assert s[..0] == [];
    } else {
      ShowNumber(n / 10);
      assert Show(n) == Show(n / 10) + [Digit(n % 10)];
      assert s == ShowOctets(n / 10) + [48 + n % 10];
      assert s[..|s| - 1] == ShowOctets(n / 10);
    }
  }

  lemma NoDots(n: nat)
    ensures 46 !in ShowOctets(n)
  {
  }

  lemma DottedParts(q: seq<byte>)
    requires |q| == 4
    ensures Parts(Dotted(q)) == [ShowOctets(q[0]), ShowOctets(q[1]), ShowOctets(q[2]), ShowOctets(q[3])]
  {
    var a, b, c, d := ShowOctets(q[0]), ShowOctets(q[1]), ShowOctets(q[2]), ShowOctets(q[3]);
    NoDots(q[0]);
    NoDots(q[1]);
    NoDots(q[2]);
    NoDots(q[3]);
    var cd := c + [DOT] + d;
    var bcd := b + [DOT] + cd;
    PartsAtDot(d, []);
    PartsAtDot(c, d);
    PartsAtDot(b, cd);
    PartsAtDot(a, bcd);
    assert Dotted(q) == a + [DOT] + bcd;
    assert [a] + ([b] + ([c] + [d])) == [a, b, c, d];
  }

  /** A reader finds the four octets of an address in their order, and each of them is printed as a plain number. */
  lemma DottedReadsBack(q: seq<byte>)
    requires |q| == 4
    ensures ReadDotted(Dotted(q)) == [q[0], q[1], q[2], q[3]]
    ensures forall part :: part in Parts(Dotted(q)) ==> IsNumber(part)
  {
    DottedParts(q);
    ShowNumber(q[0]);
    ShowNumber(q[1]);
    ShowNumber(q[2]);
    ShowNumber(q[3]);
  }
}
