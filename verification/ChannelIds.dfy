/** GenerateChannelId: the ids of the data channels a client opens. */
module ChannelIds {
  import Decimal

  /** The range of the quint64 counter. */
  const RANGE: nat := 0x1_0000_0000_0000_0000

  /** The n-th id issued by one parameter object: the counter wraps around. */
  function Id(n: nat): string {
    "c_" + Decimal.Show(n % RANGE)
  }

  function Ids(first: nat, count: nat): (r: seq<string>)
    ensures |r| == count
  {
    seq(count, i requires 0 <= i < count => Id(first + i))
  }

  /** Two issued ids are the same exactly when their numbers agree modulo the counter's range. */
  lemma IdsCollideExact(i: nat, j: nat)
    ensures Id(i) == Id(j) <==> i % 0x1_0000_0000_0000_0000 == j % 0x1_0000_0000_0000_0000
  {
    if Id(i) == Id(j) {
      assert Id(i)[2..] == Decimal.Show(i % RANGE) && Id(j)[2..] == Decimal.Show(j % RANGE);
      Decimal.ShowInjective(i % RANGE, j % RANGE);
    }
  }

  /** Any two among 2^64 ids issued one after another differ, wherever the counter stands at the first of them. */
  lemma IdsDiffer(first: nat, count: nat, i: nat, j: nat)
    requires count <= 0x1_0000_0000_0000_0000 && i < j < count
    ensures Ids(first, count)[i] != Ids(first, count)[j]
  {
    IdsCollideExact(first + i, first + j);
    DifferModulo(first + i, first + j);
  }

  lemma DifferModulo(a: nat, b: nat)
    requires a < b < a + RANGE
    ensures a % RANGE != b % RANGE
  {
  }

  /** An id is "c_" followed by the decimal digits of its number. */
  lemma IdText(n: nat)
    requires n < 0x1_0000_0000_0000_0000
    ensures Id(n)[..2] == "c_" && Decimal.Value(Id(n)[2..]) == n
    ensures forall i :: 2 <= i < |Id(n)| ==> '0' <= Id(n)[i] <= '9'
  {
    assert n % RANGE == n;
    assert Id(n)[2..] == Decimal.Show(n);
    Decimal.ShowValue(n);
  }

  class CParameterIce {
    var channelId: nat              // m_nChannelId
    ghost var issued: seq<string>

    ghost predicate Valid()
      reads this
    {
      channelId == |issued| % RANGE && issued == Ids(0, |issued|)
    }

    constructor ()
      ensures Valid() && issued == []
    {
      channelId, issued := 0, [];
    }

    method GenerateChannelId() returns (r: string)
      requires Valid()
      modifies this
      ensures Valid() && issued == old(issued) + [r]
      ensures |issued| <= 0x1_0000_0000_0000_0000 ==> r !in old(issued)
    {
      r := "c_" + Decimal.Show(channelId);
      channelId := (channelId + 1) % RANGE;
      ghost var n := |issued|;
      assert r == Id(n);
      forall i | 0 <= i < n && n < RANGE
        ensures issued[i] != r
      {
        IdsDiffer(0, n + 1, i, n);
      }
      issued := issued + [r];
      assert (n + 1) % RANGE == (n % RANGE + 1) % RANGE by {
        assert n == RANGE * (n / RANGE) + n % RANGE;
        StepModulo(n / RANGE, n % RANGE);
      }
    }
  }

  lemma StepModulo(q: nat, r: nat)
    requires r < RANGE
    ensures (RANGE * q + r + 1) % RANGE == (r + 1) % RANGE
  {
    if r + 1 < RANGE {
      Remainder(q, r + 1);
    } else {
      Remainder(q + 1, 0);
    }
  }

  lemma Remainder(q: nat, r: nat)
    requires r < RANGE
    ensures (RANGE * q + r) % RANGE == r
  {
  }
}
