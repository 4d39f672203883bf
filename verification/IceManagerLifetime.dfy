/** How long a shared peer connection stays registered, in either reading. */
module IceManagerLifetime {
  import opened IceManager
  import opened OfferGuard
  import opened Readings
  import ChannelIds

  // ---------------------------------------------------------------- lists

  lemma {:induction false} RemoveOneKeeps(s: seq<string>, x: string, y: string)
    ensures y in RemoveOne(s, x) ==> y in s
    ensures y != x && y in s ==> y in RemoveOne(s, x)
  {
    if s != [] && s[0] != x {
      RemoveOneKeeps(s[1..], x, y);
    }
  }

  lemma {:induction false} RemoveOneCounts(s: seq<string>, x: string)
    ensures multiset(RemoveOne(s, x)) == multiset(s) - multiset{x}
  {
    if s == [] {
    } else {
      assert s == [s[0]] + s[1..];
      assert multiset(s) == multiset{s[0]} + multiset(s[1..]);
      if s[0] != x {
        RemoveOneCounts(s[1..], x);
        assert multiset(RemoveOne(s, x)) == multiset{s[0]} + multiset(RemoveOne(s[1..], x));
      }
    }
  }

  /** A list does not change for a peer whose entry, labels and open local channels do not. */
  lemma SameList(m: Manager, m2: Manager, p: string)
    requires PeerListExact(m, p)
    requires p in m.links <==> p in m2.links
    requires p in m.links ==> m2.links[p].channel == m.links[p].channel
    requires Labels(m2, p) == Labels(m, p)
    requires forall k: nat, id :: OpenLocalAt(m2, k, p, id) <==> OpenLocalAt(m, k, p, id)
    ensures PeerListExact(m2, p)
  {
    forall id
      ensures HasLocal(m2, p, id) == HasLocal(m, p, id)
    {
      if HasLocal(m, p, id) {
        var k: nat :| OpenLocalAt(m, k, p, id);
        assert OpenLocalAt(m2, k, p, id);
      }
    }
  }

  // ---------------------------------------------------------------- each step keeps the invariant

  /** Registering a connection for a peer that has none. */
  lemma GetPeerConnectKeeps(m: Manager, peer: string)
    requires PcsMatch(m) && OpenListed(m) && ServerOpen(m) && LocalIdsDiffer(m) && ListExact(m) && SupersededLocal(m)
    ensures var m1 := GetPeerConnect(m, peer);
            PcsMatch(m1) && OpenListed(m1) && ServerOpen(m1) && LocalIdsDiffer(m1) && ListExact(m1) && SupersededLocal(m1)
            && peer in m1.links && m1.channels == m.channels
            && forall p :: p != peer ==> (p in m1.links <==> p in m.links) && (p in m.links ==> m1.links[p] == m.links[p])
  {
    var m1 := GetPeerConnect(m, peer);
    forall k | 0 <= k < |m1.channels| && m1.channels[k].status.Open?
      ensures Listed(m1, k)
    {
      assert Listed(m, k);
    }
    forall p
      ensures PeerListExact(m1, p)
    {
      assert PeerListExact(m, p);
      if p != peer || peer in m.links {
        SameList(m, m1, p);
      } else {
        NoOpenNoLocal(m1, p);
      }
    }
  }

  /** A peer whose entry has just been made has no open local channel. */
  lemma NoOpenNoLocal(m: Manager, p: string)
    requires p in m.links && m.links[p].channel == [] && Labels(m, p) == multiset{}
    requires forall k: nat, id :: !OpenLocalAt(m, k, p, id)
    ensures PeerListExact(m, p)
  {
    forall id
      ensures !HasLocal(m, p, id)
    {
    }
  }

  /** The registered state with the new channel listed. */
  function Enlisted(m1: Manager, peer: string, id: string): Manager
    requires peer in m1.links
  {
    m1.(links := m1.links[peer := m1.links[peer].(channel := m1.links[peer].channel + [id])],
        channels := m1.channels + [Channel(peer, id, Local, Open, m1.links[peer].pc)])
  }

  lemma OpenKeepsInv(m: Manager, peer: string, id: string)
    requires Inv(m) && Fresh(m, EOpen(peer, id))
    ensures Inv(OpenLocal(Intended, m, peer, id))
  {
    var m1 := GetPeerConnect(m, peer);
    GetPeerConnectKeeps(m, peer);
    OpenListedOpen(m1, peer, id);
    OpenListExact(m1, peer, id);
    OpenIdsDiffer(m1, peer, id);
    OpenOthers(m1, peer, id);
    OpenEmpty(m, peer, id);
  }

  lemma OpenListedOpen(m1: Manager, peer: string, id: string)
    requires OpenListed(m1) && peer in m1.links
    ensures OpenListed(Enlisted(m1, peer, id))
  {
    var m2 := Enlisted(m1, peer, id);
    assert id in m2.links[peer].channel by {
      assert m2.links[peer].channel[|m1.links[peer].channel|] == id;
    }
    forall k | 0 <= k < |m2.channels| && m2.channels[k].status.Open?
      ensures Listed(m2, k)
    {
      if k < |m1.channels| {
        assert Listed(m1, k);
      }
    }
  }

  lemma OpenIdsDiffer(m1: Manager, peer: string, id: string)
    requires LocalIdsDiffer(m1) && peer in m1.links && Fresh(m1, EOpen(peer, id))
    ensures LocalIdsDiffer(Enlisted(m1, peer, id))
  {
  }

  lemma OpenOthers(m1: Manager, peer: string, id: string)
    requires PcsMatch(m1) && ServerOpen(m1) && SupersededLocal(m1) && peer in m1.links
    ensures var m2 := Enlisted(m1, peer, id);
            PcsMatch(m2) && ServerOpen(m2) && SupersededLocal(m2)
  {
  }

  lemma OpenEmpty(m: Manager, peer: string, id: string)
    requires EmptyIsOffered(m) && PcsMatch(m)
    ensures EmptyIsOffered(OpenLocal(Intended, m, peer, id))
  {
  }

  lemma OpenListExact(m1: Manager, peer: string, id: string)
    requires ListExact(m1) && peer in m1.links && Fresh(m1, EOpen(peer, id))
    ensures ListExact(Enlisted(m1, peer, id))
  {
    var m2 := Enlisted(m1, peer, id);
    forall p
      ensures PeerListExact(m2, p)
    {
      assert PeerListExact(m1, p);
      if p == peer {
        OpenPeerList(m1, peer, id);
      } else {
        SameList(m1, m2, p);
      }
    }
  }

  lemma OpenPeerList(m1: Manager, peer: string, id: string)
    requires PeerListExact(m1, peer) && peer in m1.links && Fresh(m1, EOpen(peer, id))
    ensures PeerListExact(Enlisted(m1, peer, id), peer)
  {
    var m2 := Enlisted(m1, peer, id);
    var s := m1.links[peer].channel;
    assert multiset(s + [id]) == multiset(s) + multiset{id};
    assert OpenLocalAt(m2, |m1.channels|, peer, id);
    forall i
      ensures HasLocal(m2, peer, i) <==> i == id || HasLocal(m1, peer, i)
    {
      if HasLocal(m1, peer, i) {
        var k: nat :| OpenLocalAt(m1, k, peer, i);
        assert OpenLocalAt(m2, k, peer, i);
      }
      if HasLocal(m2, peer, i) && i != id {
        var k: nat :| OpenLocalAt(m2, k, peer, i);
        assert OpenLocalAt(m1, k, peer, i);
      }
    }
    assert !HasLocal(m1, peer, id);
  }

  lemma AnnounceKeepsInv(m: Manager, peer: string, name: string)
    requires Inv(m)
    ensures Inv(Announce(m, peer, name))
  {
    if peer in m.links {
      if m.pcs[m.links[peer].pc].forChannel {
        AnnounceLabel(m, peer, name);
      } else {
        AnnounceRemote(m, peer, name);
      }
    }
  }

  lemma AnnounceLabel(m: Manager, peer: string, name: string)
    requires Inv(m) && peer in m.links && m.pcs[m.links[peer].pc].forChannel
    ensures Inv(Announce(m, peer, name))
  {
    var m2 := Announce(m, peer, name);
    var s := m.links[peer].channel;
    forall k | 0 <= k < |m.channels| && m2.channels[k].status.Open?
      ensures Listed(m2, k)
    {
      assert Listed(m, k);
    }
    assert multiset(s + [name]) == multiset(s) + multiset{name};
    forall p
      ensures PeerListExact(m2, p)
    {
      assert PeerListExact(m, p);
      if p == peer {
        LabelList(m, peer, name);
      } else {
        SameList(m, m2, p);
      }
    }
  }

  lemma LabelList(m: Manager, peer: string, name: string)
    requires PeerListExact(m, peer) && peer in m.links && m.links[peer].pc < |m.pcs| && m.pcs[m.links[peer].pc].forChannel
    ensures PeerListExact(Announce(m, peer, name), peer)
  {
    var m2 := Announce(m, peer, name);
    var s := m.links[peer].channel;
    assert multiset(s + [name]) == multiset(s) + multiset{name};
    forall id
      ensures HasLocal(m2, peer, id) == HasLocal(m, peer, id)
    {
      if HasLocal(m, peer, id) {
        var k: nat :| OpenLocalAt(m, k, peer, id);
        assert OpenLocalAt(m2, k, peer, id);
      }
      if HasLocal(m2, peer, id) {
        var k: nat :| OpenLocalAt(m2, k, peer, id);
        assert OpenLocalAt(m, k, peer, id);
      }
    }
  }

  /** What an announced channel does to the earlier ones: at most one connector is dropped, a remote one. */
  lemma AnnounceChannels(m: Manager, peer: string, name: string)
    requires ServerOpen(m) && peer in m.links && m.links[peer].pc < |m.pcs| && !m.pcs[m.links[peer].pc].forChannel
    ensures var m2 := Announce(m, peer, name);
            |m2.channels| == |m.channels| + 1
            && forall k :: 0 <= k < |m.channels| ==>
                 m2.channels[k] == m.channels[k]
                 || (m.channels[k].role.Remote? && m2.channels[k] == m.channels[k].(status := Dropped))
  {
  }

  lemma AnnounceRemote(m: Manager, peer: string, name: string)
    requires Inv(m) && peer in m.links && !m.pcs[m.links[peer].pc].forChannel
    ensures Inv(Announce(m, peer, name))
  {
    AnnounceListed(m, peer, name);
    AnnounceServer(m, peer, name);
    AnnounceLists(m, peer, name);
    AnnounceRest(m, peer, name);
  }

  lemma AnnounceLists(m: Manager, peer: string, name: string)
    requires ServerOpen(m) && ListExact(m)
    requires peer in m.links && m.links[peer].pc < |m.pcs| && !m.pcs[m.links[peer].pc].forChannel
    ensures ListExact(Announce(m, peer, name))
  {
    var m2 := Announce(m, peer, name);
    AnnounceChannels(m, peer, name);
    forall p
      ensures PeerListExact(m2, p)
    {
      assert PeerListExact(m, p);
      SameList(m, m2, p);
    }
  }

  lemma AnnounceRest(m: Manager, peer: string, name: string)
    requires PcsMatch(m) && ServerOpen(m) && LocalIdsDiffer(m) && EmptyIsOffered(m) && SupersededLocal(m)
    requires peer in m.links && !m.pcs[m.links[peer].pc].forChannel
    ensures var m2 := Announce(m, peer, name);
            PcsMatch(m2) && LocalIdsDiffer(m2) && EmptyIsOffered(m2) && SupersededLocal(m2)
  {
    AnnounceIds(m, peer, name);
    AnnounceNotEmpty(m, peer, name);
  }

  lemma AnnounceIds(m: Manager, peer: string, name: string)
    requires ServerOpen(m) && LocalIdsDiffer(m) && SupersededLocal(m)
    requires peer in m.links && m.links[peer].pc < |m.pcs| && !m.pcs[m.links[peer].pc].forChannel
    ensures LocalIdsDiffer(Announce(m, peer, name)) && SupersededLocal(Announce(m, peer, name))
  {
    AnnounceChannels(m, peer, name);
  }

  lemma AnnounceNotEmpty(m: Manager, peer: string, name: string)
    requires PcsMatch(m) && EmptyIsOffered(m) && peer in m.links && !m.pcs[m.links[peer].pc].forChannel
    ensures PcsMatch(Announce(m, peer, name)) && EmptyIsOffered(Announce(m, peer, name))
  {
    assert name in Announce(m, peer, name).links[peer].server;
  }

  lemma AnnounceListed(m: Manager, peer: string, name: string)
    requires OpenListed(m) && peer in m.links && m.links[peer].pc < |m.pcs| && !m.pcs[m.links[peer].pc].forChannel
    ensures OpenListed(Announce(m, peer, name))
  {
    var m2 := Announce(m, peer, name);
    forall k | 0 <= k < |m2.channels| && m2.channels[k].status.Open?
      ensures Listed(m2, k)
    {
      if k < |m.channels| {
        assert m2.channels[k] == m.channels[k];
        assert Listed(m, k);
      }
    }
  }

  lemma AnnounceServer(m: Manager, peer: string, name: string)
    requires ServerOpen(m) && peer in m.links && m.links[peer].pc < |m.pcs| && !m.pcs[m.links[peer].pc].forChannel
    ensures ServerOpen(Announce(m, peer, name))
  {
    var m2 := Announce(m, peer, name);
    forall p, id | p in m2.links && id in m2.links[p].server
      ensures var k := m2.links[p].server[id];
              IsOpen(m2, k) && m2.channels[k].role.Remote? && m2.channels[k].peer == p && m2.channels[k].id == id
    {
      if !(p == peer && id == name) {
        assert id in m.links[p].server && IsOpen(m, m.links[p].server[id]);
      }
    }
  }

  lemma OfferKeepsInv(cfg: Config, m: Manager, from: string, to: string)
    requires Inv(m)
    ensures Inv(SlotOffer(cfg, m, from, to))
  {
    if !Refused(cfg, from, to) {
      OfferListed(cfg, m, from, to);
      OfferLists(cfg, m, from, to);
      OfferSuperseded(cfg, m, from, to);
      OfferServer(cfg, m, from, to);
      OfferRest(cfg, m, from, to);
    }
  }

  /** Of the offering peer's channels none stays open, and the others are not touched. */
  lemma OfferChannels(cfg: Config, m: Manager, from: string, to: string)
    requires !Refused(cfg, from, to)
    ensures var m2 := SlotOffer(cfg, m, from, to);
            |m2.channels| == |m.channels|
            && forall k :: 0 <= k < |m.channels| ==>
                 (m.channels[k].peer != from ==> m2.channels[k] == m.channels[k])
                 && (m.channels[k].peer == from ==>
                       !m2.channels[k].status.Open? && m2.channels[k] == m.channels[k].(status := m2.channels[k].status))
  {
  }

  lemma OfferListed(cfg: Config, m: Manager, from: string, to: string)
    requires OpenListed(m) && !Refused(cfg, from, to)
    ensures OpenListed(SlotOffer(cfg, m, from, to))
  {
    var m2 := SlotOffer(cfg, m, from, to);
    OfferChannels(cfg, m, from, to);
    forall k | 0 <= k < |m2.channels| && m2.channels[k].status.Open?
      ensures Listed(m2, k)
    {
      assert Listed(m, k);
    }
  }

  lemma OfferLists(cfg: Config, m: Manager, from: string, to: string)
    requires ListExact(m) && !Refused(cfg, from, to)
    ensures ListExact(SlotOffer(cfg, m, from, to))
  {
    var m2 := SlotOffer(cfg, m, from, to);
    OfferChannels(cfg, m, from, to);
    forall p
      ensures PeerListExact(m2, p)
    {
      assert PeerListExact(m, p);
      if p == from {
        NoOpenNoLocal(m2, p);
      } else {
        SameList(m, m2, p);
      }
    }
  }

  lemma OfferSuperseded(cfg: Config, m: Manager, from: string, to: string)
    requires OpenListed(m) && SupersededLocal(m) && !Refused(cfg, from, to)
    ensures SupersededLocal(SlotOffer(cfg, m, from, to))
  {
    var m2 := SlotOffer(cfg, m, from, to);
    forall k | 0 <= k < |m.channels|
      ensures m2.channels[k].status.Superseded? ==> m2.channels[k].role.Local?
    {
      if m.channels[k].status.Open? && m.channels[k].role.Remote? {
        assert Listed(m, k);
      }
    }
  }

  lemma OfferServer(cfg: Config, m: Manager, from: string, to: string)
    requires ServerOpen(m) && !Refused(cfg, from, to)
    ensures ServerOpen(SlotOffer(cfg, m, from, to))
  {
    var m2 := SlotOffer(cfg, m, from, to);
    OfferChannels(cfg, m, from, to);
    forall p, id | p in m2.links && id in m2.links[p].server
      ensures var k := m2.links[p].server[id];
              IsOpen(m2, k) && m2.channels[k].role.Remote? && m2.channels[k].peer == p && m2.channels[k].id == id
    {
      assert p != from && IsOpen(m, m.links[p].server[id]);
    }
  }

  lemma OfferRest(cfg: Config, m: Manager, from: string, to: string)
    requires PcsMatch(m) && LocalIdsDiffer(m) && EmptyIsOffered(m) && !Refused(cfg, from, to)
    ensures var m2 := SlotOffer(cfg, m, from, to);
            PcsMatch(m2) && LocalIdsDiffer(m2) && EmptyIsOffered(m2)
  {
    OfferChannels(cfg, m, from, to);
  }

  /** The list for the channel's role loses its id and nothing that belongs to another open channel. */
  lemma CloseKeepsInv(m: Manager, k: nat)
    requires Inv(m)
    ensures Inv(CloseChannel(Intended, m, k))
  {
    if k < |m.channels| && Closable(m.channels[k]) {
      CloseOpenListed(m, k);
      CloseLists(m, k);
      CloseServerOpen(m, k);
      CloseRest(m, k);
    }
  }

  lemma CloseOpenListed(m: Manager, k: nat)
    requires Inv(m) && k < |m.channels| && Closable(m.channels[k])
    ensures OpenListed(CloseChannel(Intended, m, k))
  {
    var m2 := CloseChannel(Intended, m, k);
    forall j | 0 <= j < |m2.channels| && m2.channels[j].status.Open?
      ensures Listed(m2, j)
    {
      CloseKeepsListed(m, k, j);
    }
  }

  lemma CloseLists(m: Manager, k: nat)
    requires Inv(m) && k < |m.channels| && Closable(m.channels[k])
    ensures ListExact(CloseChannel(Intended, m, k))
  {
    forall p
      ensures PeerListExact(CloseChannel(Intended, m, k), p)
    {
      assert PeerListExact(m, p);
      if p == m.channels[k].peer {
        CloseListExact(m, k);
      } else {
        CloseOtherList(m, k, p);
      }
    }
  }

  lemma CloseOtherList(m: Manager, k: nat, p: string)
    requires PeerListExact(m, p) && k < |m.channels| && Closable(m.channels[k]) && p != m.channels[k].peer
    ensures PeerListExact(CloseChannel(Intended, m, k), p)
  {
    SameList(m, CloseChannel(Intended, m, k), p);
  }

  lemma CloseRest(m: Manager, k: nat)
    requires PcsMatch(m) && LocalIdsDiffer(m) && EmptyIsOffered(m) && SupersededLocal(m)
    requires k < |m.channels| && Closable(m.channels[k])
    ensures var m2 := CloseChannel(Intended, m, k);
            PcsMatch(m2) && LocalIdsDiffer(m2) && EmptyIsOffered(m2) && SupersededLocal(m2)
  {
  }

  lemma CloseKeepsListed(m: Manager, k: nat, j: nat)
    requires Inv(m) && k < |m.channels| && Closable(m.channels[k])
    requires IsOpen(m, j) && j != k
    ensures Listed(CloseChannel(Intended, m, k), j)
  {
    var c, d := m.channels[k], m.channels[j];
    assert Listed(m, j);
    if c.peer == d.peer {
      var l := Unlist(Intended, m.links[c.peer], c.role, c.id);
      if c.role.Local? {
        if d.role.Local? {
          assert c.id != d.id;
        }
        RemoveOneKeeps(m.links[c.peer].channel, c.id, d.id);
      } else {
        assert c.status.Open? && Listed(m, k);
      }
      assert d.role.Local? ==> d.id in l.channel;
      assert d.role.Remote? ==> d.id in l.server;
    }
  }

  lemma CloseListExact(m: Manager, k: nat)
    requires Inv(m) && k < |m.channels| && Closable(m.channels[k])
    ensures PeerListExact(CloseChannel(Intended, m, k), m.channels[k].peer)
  {
    var m2 := CloseChannel(Intended, m, k);
    var c := m.channels[k];
    var p := c.peer;
    assert PeerListExact(m, p);
    forall id
      ensures HasLocal(m2, p, id) <==> HasLocal(m, p, id) && !(c.status.Open? && c.role.Local? && id == c.id)
    {
      CloseLocals(m, k, id);
    }
    if c.role.Local? {
      ClosedIdHeld(m, k);
      if p in m.links {
        CountsAfterLocal(m, m2, k);
      }
    } else {
      assert c.status.Open? && Listed(m, k);
      CountsAfterRemote(m, m2, k);
    }
  }

  lemma CloseLocals(m: Manager, k: nat, id: string)
    requires LocalIdsDiffer(m) && k < |m.channels| && Closable(m.channels[k])
    ensures var m2 := CloseChannel(Intended, m, k);
            var c := m.channels[k];
            HasLocal(m2, c.peer, id) <==> HasLocal(m, c.peer, id) && !(c.status.Open? && c.role.Local? && id == c.id)
  {
    var m2 := CloseChannel(Intended, m, k);
    var c := m.channels[k];
    if HasLocal(m, c.peer, id) {
      var j: nat :| OpenLocalAt(m, j, c.peer, id);
      if j != k {
        assert OpenLocalAt(m2, j, c.peer, id);
      }
    }
    if HasLocal(m2, c.peer, id) {
      var j: nat :| OpenLocalAt(m2, j, c.peer, id);
      assert j != k && OpenLocalAt(m, j, c.peer, id);
    }
  }

  /** The id of a local channel is held by an open one exactly when that is the channel itself. */
  lemma ClosedIdHeld(m: Manager, k: nat)
    requires LocalIdsDiffer(m) && k < |m.channels| && m.channels[k].role.Local?
    ensures HasLocal(m, m.channels[k].peer, m.channels[k].id) <==> m.channels[k].status.Open?
  {
    var c := m.channels[k];
    if c.status.Open? {
      assert OpenLocalAt(m, k, c.peer, c.id);
    } else {
      forall j: nat
        ensures !OpenLocalAt(m, j, c.peer, c.id)
      {
      }
    }
  }

  /** The arithmetic of taking an id off a list: an open channel's own, or a label for a superseded channel. */
  lemma CountAfter(all: multiset<string>, labels: multiset<string>, isOpen: bool, x: string, id: string, had: bool, has: bool)
    requires all[id] == labels[id] + if had then 1 else 0
    requires id == x ==> (had <==> isOpen)
    requires has <==> had && !(isOpen && id == x)
    ensures (all - multiset{x})[id] == (if isOpen then labels else labels - multiset{x})[id] + if has then 1 else 0
  {
    MinusOne(all, x, id);
    MinusOne(labels, x, id);
  }

  lemma MinusOne(all: multiset<string>, x: string, id: string)
    ensures (all - multiset{x})[id] == if id == x && all[id] > 0 then all[id] - 1 else all[id]
  {
  }

  lemma CountsAfterLocal(m: Manager, m2: Manager, k: nat)
    requires k < |m.channels| && Closable(m.channels[k]) && m.channels[k].role.Local?
    requires m2 == CloseChannel(Intended, m, k)
    requires var c := m.channels[k];
             c.peer in m.links && PeerListExact(m, c.peer) && (HasLocal(m, c.peer, c.id) <==> c.status.Open?)
             && forall id :: HasLocal(m2, c.peer, id) <==> HasLocal(m, c.peer, id) && !(c.status.Open? && id == c.id)
    ensures PeerListExact(m2, m.channels[k].peer)
  {
    var c := m.channels[k];
    var t := RemoveOne(m.links[c.peer].channel, c.id);
    forall id
      ensures multiset(t)[id] == LabelsAfter(m, k)[id] + if HasLocal(m2, c.peer, id) then 1 else 0
    {
      CountOf(m, k, id, HasLocal(m2, c.peer, id));
    }
    if t == [] {
      NothingCounted(LabelsAfter(m, k), t);
    }
    ListAfter(m, m2, k);
  }

  lemma CountOf(m: Manager, k: nat, id: string, has: bool)
    requires k < |m.channels| && m.channels[k].peer in m.links && Closable(m.channels[k])
    requires var c := m.channels[k];
             PeerListExact(m, c.peer) && (HasLocal(m, c.peer, c.id) <==> c.status.Open?)
             && (has <==> HasLocal(m, c.peer, id) && !(c.status.Open? && id == c.id))
    ensures var c := m.channels[k];
            multiset(RemoveOne(m.links[c.peer].channel, c.id))[id] == LabelsAfter(m, k)[id] + if has then 1 else 0
  {
    var c := m.channels[k];
    var s := m.links[c.peer].channel;
    RemoveOneCounts(s, c.id);
    CountAfter(multiset(s), Labels(m, c.peer), c.status.Open?, c.id, id, HasLocal(m, c.peer, id), has);
  }

  /** What the close leaves of the peer's entry and labels. */
  lemma ListAfter(m: Manager, m2: Manager, k: nat)
    requires k < |m.channels| && Closable(m.channels[k]) && m.channels[k].role.Local? && m.channels[k].peer in m.links
    requires m2 == CloseChannel(Intended, m, k)
    requires var c := m.channels[k];
             var t := RemoveOne(m.links[c.peer].channel, c.id);
             (forall id :: multiset(t)[id] == LabelsAfter(m, k)[id] + if HasLocal(m2, c.peer, id) then 1 else 0)
             && (t == [] ==> LabelsAfter(m, k) == multiset{})
    ensures PeerListExact(m2, m.channels[k].peer)
  {
    assert Labels(m2, m.channels[k].peer) == LabelsAfter(m, k);
  }

  lemma CountsAfterRemote(m: Manager, m2: Manager, k: nat)
    requires k < |m.channels| && m.channels[k].status.Open? && m.channels[k].role.Remote?
    requires m2 == CloseChannel(Intended, m, k)
    requires var c := m.channels[k];
             c.peer in m.links && PeerListExact(m, c.peer)
             && forall id :: HasLocal(m2, c.peer, id) <==> HasLocal(m, c.peer, id)
    ensures PeerListExact(m2, m.channels[k].peer)
  {
    var p := m.channels[k].peer;
    var s := m.links[p].channel;
    if p !in m2.links {
      assert forall id :: multiset(s)[id] == Labels(m, p)[id] + if HasLocal(m, p, id) then 1 else 0;
      NothingCounted(Labels(m2, p), s);
    }
  }

  lemma NothingCounted(labels: multiset<string>, s: seq<string>)
    requires s == [] && forall id :: labels[id] <= multiset(s)[id]
    ensures labels == multiset{}
  {
    forall id
      ensures labels[id] == 0
    {
      assert multiset(s)[id] == 0;
    }
  }

  lemma CloseServerOpen(m: Manager, k: nat)
    requires Inv(m) && k < |m.channels| && Closable(m.channels[k])
    ensures ServerOpen(CloseChannel(Intended, m, k))
  {
    var m2 := CloseChannel(Intended, m, k);
    forall p, id | p in m2.links && id in m2.links[p].server
      ensures var j := m2.links[p].server[id];
              IsOpen(m2, j) && m2.channels[j].role.Remote? && m2.channels[j].peer == p && m2.channels[j].id == id
    {
      assert p in m.links && id in m.links[p].server && m.links[p].server[id] == m2.links[p].server[id];
      var j := m.links[p].server[id];
      assert IsOpen(m, j);
    }
  }

  lemma StepKeepsInv(cfg: Config, m: Manager, e: Event)
    requires Inv(m) && Fresh(m, e)
    ensures Inv(Step(Intended, cfg, m, e))
  {
    match e {
      case EOpen(peer, id) => OpenKeepsInv(m, peer, id);
      case EAnnounce(peer, id) => AnnounceKeepsInv(m, peer, id);
      case EOffer(from, to) => OfferKeepsInv(cfg, m, from, to);
      case EClose(k) => CloseKeepsInv(m, k);
    }
  }

  lemma {:induction false} RunKeepsInv(cfg: Config, m: Manager, es: seq<Event>)
    requires Inv(m) && AllFresh(Intended, cfg, m, es)
    ensures Inv(Run(Intended, cfg, m, es))
    decreases |es|
  {
    if es == [] {
    } else {
      StepKeepsInv(cfg, m, es[0]);
      RunKeepsInv(cfg, Step(Intended, cfg, m, es[0]), es[1..]);
    }
  }

  // ---------------------------------------------------------------- lifetime of a shared connection

  lemma EmptyInv()
    ensures Inv(EMPTY)
  {
  }

  /** The ids of the channels opened in a run are issued by one GenerateChannelId counter, from `n` on. */
  predicate Issued(es: seq<Event>, n: nat)
    decreases |es|
  {
    es == []
    || if es[0].EOpen? then n < ChannelIds.RANGE && es[0].id == ChannelIds.Id(n) && Issued(es[1..], n + 1)
       else Issued(es[1..], n)
  }

  predicate IssuedBefore(m: Manager, n: nat) {
    forall k :: 0 <= k < |m.channels| && m.channels[k].role.Local? ==>
      exists i :: 0 <= i < n && m.channels[k].id == ChannelIds.Id(i)
  }

  lemma StepIssued(v: Variant, cfg: Config, m: Manager, e: Event, n: nat)
    requires IssuedBefore(m, n) && (e.EOpen? ==> e.id == ChannelIds.Id(n))
    ensures IssuedBefore(Step(v, cfg, m, e), if e.EOpen? then n + 1 else n)
  {
    var m2 := Step(v, cfg, m, e);
    var n2 := if e.EOpen? then n + 1 else n;
    forall k | 0 <= k < |m2.channels| && m2.channels[k].role.Local?
      ensures exists i :: 0 <= i < n2 && m2.channels[k].id == ChannelIds.Id(i)
    {
      if k < |m.channels| {
        assert m2.channels[k].id == m.channels[k].id && m.channels[k].role.Local?;
        var i :| 0 <= i < n && m.channels[k].id == ChannelIds.Id(i);
        assert 0 <= i < n2;
      }
    }
  }

  /** So they are all fresh. */
  lemma {:induction false} IssuedAreFresh(v: Variant, cfg: Config, m: Manager, es: seq<Event>, n: nat)
    requires Issued(es, n) && IssuedBefore(m, n)
    ensures AllFresh(v, cfg, m, es)
    decreases |es|
  {
    if es == [] {
    } else {
      var e := es[0];
      if e.EOpen? {
        forall k | 0 <= k < |m.channels| && m.channels[k].role.Local? && m.channels[k].peer == e.peer
          ensures m.channels[k].id != e.id
        {
          var i :| 0 <= i < n && m.channels[k].id == ChannelIds.Id(i);
          ChannelIds.IdsCollideExact(i, n);
        }
      }
      StepIssued(v, cfg, m, e, n);
      IssuedAreFresh(v, cfg, Step(v, cfg, m, e), es[1..], if e.EOpen? then n + 1 else n);
    }
  }

  /** Over every run: while a channel is open its peer is registered, with the connection the channel was opened on,
      and a connection is registered under no peer but its own. */
  lemma OpenChannelsStayRegistered(cfg: Config, es: seq<Event>)
    requires Issued(es, 0)
    ensures var m := Run(Intended, cfg, EMPTY, es);
            Inv(m)
            && (forall k: nat :: IsOpen(m, k) ==>
                  m.channels[k].peer in m.links && m.links[m.channels[k].peer].pc == m.channels[k].pc)
            && (forall p, q :: p in m.links && q in m.links && m.links[p].pc == m.links[q].pc ==> p == q)
  {
    EmptyInv();
    IssuedAreFresh(Intended, cfg, EMPTY, es, 0);
    RunKeepsInv(cfg, EMPTY, es);
    var m := Run(Intended, cfg, EMPTY, es);
    forall k: nat | IsOpen(m, k)
      ensures m.channels[k].peer in m.links && m.links[m.channels[k].peer].pc == m.channels[k].pc
    {
      assert Listed(m, k);
    }
    forall p, q | p in m.links && q in m.links && m.links[p].pc == m.links[q].pc
      ensures p == q
    {
      assert m.pcs[m.links[p].pc].peer == p;
    }
  }

  predicate AnotherOpen(m: Manager, k: nat, p: string) {
    exists j :: 0 <= j < |m.channels| && j != k && m.channels[j].status.Open? && m.channels[j].peer == p
  }

  /** A close drops the peer exactly when no other channel of it is open and no announced label is left. That includes
      the late close of a channel whose connection was replaced: it drops the replacement if nothing has been
      announced on it yet. */
  lemma CloseExact(m: Manager, k: nat)
    requires Inv(m) && k < |m.channels| && Closable(m.channels[k])
    ensures var p := m.channels[k].peer;
            p in CloseChannel(Intended, m, k).links <==> AnotherOpen(m, k, p) || LabelsAfter(m, k) != multiset{}
  {
    var m2 := CloseChannel(Intended, m, k);
    var p := m.channels[k].peer;
    CloseKeepsInv(m, k);
    assert PeerListExact(m2, p);
    assert Labels(m2, p) == LabelsAfter(m, k);
    if AnotherOpen(m, k, p) {
      var j :| 0 <= j < |m.channels| && j != k && m.channels[j].status.Open? && m.channels[j].peer == p;
      assert m2.channels[j] == m.channels[j];
      assert Listed(m2, j);
    }
    if p in m2.links && Labels(m2, p) == multiset{} {
      RegisteredHasOpen(m2, p);
      var j: nat :| IsOpen(m2, j) && m2.channels[j].peer == p;
      assert j != k && m.channels[j] == m2.channels[j];
    }
  }

  /** A registered peer with something on its lists has an open channel or an announced label. */
  lemma RegisteredHasOpen(m: Manager, p: string)
    requires Inv(m) && p in m.links && Labels(m, p) == multiset{}
    requires m.links[p].channel != [] || m.links[p].server != map[]
    ensures exists j: nat :: IsOpen(m, j) && m.channels[j].peer == p
  {
    if m.links[p].channel != [] {
      var id := m.links[p].channel[0];
      assert PeerListExact(m, p);
      assert multiset(m.links[p].channel)[id] > 0;
      assert HasLocal(m, p, id);
      var j: nat :| OpenLocalAt(m, j, p, id);
      assert IsOpen(m, j) && m.channels[j].peer == p;
    } else {
      var id :| id in m.links[p].server;
      var j := m.links[p].server[id];
      assert IsOpen(m, j) && m.channels[j].peer == p;
    }
  }

  /** A connection that was made for a local channel is registered only as long as the peer has an open channel or an
      announced label. */
  lemma MadeConnectionIsUsed(cfg: Config, es: seq<Event>, p: string)
    requires Issued(es, 0)
    requires var m := Run(Intended, cfg, EMPTY, es);
             p in m.links && m.links[p].pc < |m.pcs| && m.pcs[m.links[p].pc].forChannel
    ensures var m := Run(Intended, cfg, EMPTY, es);
            Labels(m, p) != multiset{} || exists j: nat :: IsOpen(m, j) && m.channels[j].peer == p
  {
    OpenChannelsStayRegistered(cfg, es);
    var m := Run(Intended, cfg, EMPTY, es);
    if Labels(m, p) == multiset{} {
      RegisteredHasOpen(m, p);
    }
  }

  function EventPeer(m: Manager, e: Event): string {
    match e
    case EOpen(peer, _) => peer
    case EAnnounce(peer, _) => peer
    case EOffer(from, _) => from
    case EClose(k) => if k < |m.channels| then m.channels[k].peer else ""
  }

  /** Every connector on a peer's server list belongs to that peer. */
  predicate ServerOwned(m: Manager) {
    forall p, id :: p in m.links && id in m.links[p].server ==>
      m.links[p].server[id] < |m.channels| && m.channels[m.links[p].server[id]].peer == p
  }

  /** A step for one peer leaves the entry and the channels of every other peer as they were, in either reading. */
  lemma OtherPeersUntouched(v: Variant, cfg: Config, m: Manager, e: Event, p: string)
    requires ServerOwned(m) && p != EventPeer(m, e)
    ensures var m2 := Step(v, cfg, m, e);
            (p in m2.links <==> p in m.links)
            && (p in m.links ==> m2.links[p] == m.links[p])
            && |m2.channels| >= |m.channels|
            && (forall k :: 0 <= k < |m.channels| && m.channels[k].peer == p ==> m2.channels[k] == m.channels[k])
  {
  }

  lemma StepKeepsOwned(v: Variant, cfg: Config, m: Manager, e: Event)
    requires ServerOwned(m)
    ensures ServerOwned(Step(v, cfg, m, e))
  {
    match e
    case EOpen(peer, id) =>
    case EAnnounce(peer, id) => AnnounceOwned(m, peer, id);
    case EOffer(from, to) =>
    case EClose(k) => CloseOwned(v, m, k);
  }

  lemma AnnounceOwned(m: Manager, peer: string, name: string)
    requires ServerOwned(m)
    ensures ServerOwned(Announce(m, peer, name))
  {
    var m2 := Announce(m, peer, name);
    forall p, id | p in m2.links && id in m2.links[p].server
      ensures m2.links[p].server[id] < |m2.channels| && m2.channels[m2.links[p].server[id]].peer == p
    {
      assert p in m.links;
      if id in m.links[p].server {
        assert m.links[p].server[id] < |m.channels|;
      }
    }
  }

  lemma CloseOwned(v: Variant, m: Manager, k: nat)
    requires ServerOwned(m)
    ensures ServerOwned(CloseChannel(v, m, k))
  {
    var m2 := CloseChannel(v, m, k);
    forall p, id | p in m2.links && id in m2.links[p].server
      ensures m2.links[p].server[id] < |m2.channels| && m2.channels[m2.links[p].server[id]].peer == p
    {
      assert p in m.links && id in m.links[p].server && m.links[p].server[id] == m2.links[p].server[id];
    }
  }

  predicate AllElsewhere(v: Variant, cfg: Config, m: Manager, es: seq<Event>, p: string)
    decreases |es|
  {
    es == [] || (EventPeer(m, es[0]) != p && AllElsewhere(v, cfg, Step(v, cfg, m, es[0]), es[1..], p))
  }

  lemma {:induction false} OtherPeersUntouchedRun(v: Variant, cfg: Config, m: Manager, es: seq<Event>, p: string)
    requires ServerOwned(m) && AllElsewhere(v, cfg, m, es, p)
    ensures var m2 := Run(v, cfg, m, es);
            (p in m2.links <==> p in m.links)
            && (p in m.links ==> m2.links[p] == m.links[p])
            && |m2.channels| >= |m.channels|
            && (forall k :: 0 <= k < |m.channels| && m.channels[k].peer == p ==> m2.channels[k] == m.channels[k])
    decreases |es|
  {
    if es == [] {
    } else {
      OtherPeersUntouched(v, cfg, m, es[0], p);
      StepKeepsOwned(v, cfg, m, es[0]);
      OtherPeersUntouchedRun(v, cfg, Step(v, cfg, m, es[0]), es[1..], p);
    }
  }

  /** Even with the lists matched, a late close can lose an offer: the channel announced next finds no entry. */
  lemma LateCloseLosesOffer(cfg: Config, p: string, q: string, a: string, b: string)
    requires !Refused(cfg, p, q)
    ensures var m := Run(Intended, cfg, EMPTY, [EOpen(p, a), EOffer(p, q), EClose(0)]);
            p !in m.links && Announce(m, p, b) == m
  {
    var m1 := OpenLocal(Intended, EMPTY, p, a);
    var m2 := SlotOffer(cfg, m1, p, q);
    var m3 := CloseChannel(Intended, m2, 0);
    assert m2.channels[0].status == Superseded;
    assert Run(Intended, cfg, m3, []) == m3;
    assert [EOffer(p, q), EClose(0)][1..] == [EClose(0)];
    assert [EOpen(p, a), EOffer(p, q), EClose(0)][1..] == [EOffer(p, q), EClose(0)];
    RunOne(Intended, cfg, m2, EClose(0), []);
    RunOne(Intended, cfg, m1, EOffer(p, q), [EClose(0)]);
    RunOne(Intended, cfg, EMPTY, EOpen(p, a), [EOffer(p, q), EClose(0)]);
  }

  lemma RunOne(v: Variant, cfg: Config, m: Manager, e: Event, es: seq<Event>)
    ensures Run(v, cfg, m, [e] + es) == Run(v, cfg, Step(v, cfg, m, e), es)
  {
    assert ([e] + es)[1..] == es;
  }

  // ---------------------------------------------------------------- as written

  predicate OpenRegistered(m: Manager) {
    forall k :: 0 <= k < |m.channels| && m.channels[k].status.Open? ==> m.channels[k].peer in m.links
  }

  predicate ClientEvents(es: seq<Event>) {
    forall i :: 0 <= i < |es| ==> es[i].EOpen? || es[i].EClose?
  }

  /** Every state of the run, the first included, registers the peers of its open channels. */
  predicate KeptAlong(v: Variant, cfg: Config, m: Manager, es: seq<Event>)
    decreases |es|
  {
    OpenRegistered(m) && (es == [] || KeptAlong(v, cfg, Step(v, cfg, m, es[0]), es[1..]))
  }

  /** No channel is closed while another channel of its peer is open. */
  predicate SoloCloses(v: Variant, cfg: Config, m: Manager, es: seq<Event>)
    decreases |es|
  {
    es == []
    || ((es[0].EClose? && IsOpen(m, es[0].k) ==> !AnotherOpen(m, es[0].k, m.channels[es[0].k].peer))
        && SoloCloses(v, cfg, Step(v, cfg, m, es[0]), es[1..]))
  }

  /** On the client side nothing is ever on the lists. */
  predicate Bare(m: Manager) {
    (forall p :: p in m.links ==> m.links[p].channel == [] && m.links[p].server == map[])
    && (forall k :: 0 <= k < |m.channels| ==> !m.channels[k].status.Superseded?)
  }

  lemma WrittenStepExact(cfg: Config, m: Manager, e: Event)
    requires Bare(m) && OpenRegistered(m) && (e.EOpen? || e.EClose?)
    ensures var m2 := Step(Written, cfg, m, e);
            Bare(m2)
            && (OpenRegistered(m2) <==>
                  (e.EClose? && IsOpen(m, e.k) ==> !AnotherOpen(m, e.k, m.channels[e.k].peer)))
  {
    var m2 := Step(Written, cfg, m, e);
    if e.EClose? && IsOpen(m, e.k) {
      var p := m.channels[e.k].peer;
      assert p !in m2.links;
      if AnotherOpen(m, e.k, p) {
        var j :| 0 <= j < |m.channels| && j != e.k && m.channels[j].status.Open? && m.channels[j].peer == p;
        assert m2.channels[j] == m.channels[j];
        assert !OpenRegistered(m2);
      }
    }
  }

  /** As written, a client that opens and closes channels keeps its shared connections registered exactly when it
      never closes a channel while another one to the same peer is open. */
  lemma {:induction false} WrittenClientExact(cfg: Config, m: Manager, es: seq<Event>)
    requires Bare(m) && OpenRegistered(m) && ClientEvents(es)
    ensures KeptAlong(Written, cfg, m, es) <==> SoloCloses(Written, cfg, m, es)
    decreases |es|
  {
    if es == [] {
    } else {
      WrittenStepExact(cfg, m, es[0]);
      var m2 := Step(Written, cfg, m, es[0]);
      if OpenRegistered(m2) {
        WrittenClientExact(cfg, m2, es[1..]);
      }
    }
  }

  /** What makes the written CloseDataChannel keep the entry: after the id is taken off the list it is not in, one of
      the two lists holds something else. */
  predicate StaysListed(l: Link, c: Channel) {
    match c.role
    case Local => l.channel != [] || l.server - {c.id} != map[]
    case Remote => l.server != map[] || RemoveOne(l.channel, c.id) != []
  }

  /** A close, while another channel of the peer is open, leaves something on the lists. */
  predicate SafeClose(m: Manager, e: Event) {
    e.EClose? && e.k < |m.channels| && Closable(m.channels[e.k]) ==>
      var c := m.channels[e.k];
      AnotherOpen(m, e.k, c.peer) && c.peer in m.links ==> StaysListed(m.links[c.peer], c)
  }

  predicate SafeCloses(cfg: Config, m: Manager, es: seq<Event>)
    decreases |es|
  {
    es == [] || (SafeClose(m, es[0]) && SafeCloses(cfg, Step(Written, cfg, m, es[0]), es[1..]))
  }

  lemma WrittenStepKeeps(cfg: Config, m: Manager, e: Event)
    requires OpenRegistered(m)
    ensures OpenRegistered(Step(Written, cfg, m, e)) <==> SafeClose(m, e)
  {
    match e
    case EOpen(peer, id) =>
    case EAnnounce(peer, id) =>
    case EOffer(from, to) => OfferRegistered(cfg, m, from, to);
    case EClose(k) => CloseRegistered(m, k);
  }

  lemma OfferRegistered(cfg: Config, m: Manager, from: string, to: string)
    requires OpenRegistered(m)
    ensures OpenRegistered(SlotOffer(cfg, m, from, to))
  {
    if !Refused(cfg, from, to) {
      OfferChannels(cfg, m, from, to);
    }
  }

  lemma CloseRegistered(m: Manager, k: nat)
    requires OpenRegistered(m)
    ensures OpenRegistered(CloseChannel(Written, m, k)) <==> SafeClose(m, EClose(k))
  {
    if k < |m.channels| && Closable(m.channels[k]) {
      var m2 := CloseChannel(Written, m, k);
      var c := m.channels[k];
      if !SafeClose(m, EClose(k)) {
        var j :| 0 <= j < |m.channels| && j != k && m.channels[j].status.Open? && m.channels[j].peer == c.peer;
        assert m2.channels[j] == m.channels[j] && c.peer !in m2.links;
      } else {
        forall j | 0 <= j < |m2.channels| && m2.channels[j].status.Open?
          ensures m2.channels[j].peer in m2.links
        {
          assert j != k && m.channels[j].peer in m.links;
          if m.channels[j].peer == c.peer {
            assert AnotherOpen(m, k, c.peer);
          }
        }
      }
    }
  }

  /** As written, in a process with any mixture of roles: the peers of the open channels stay registered along a run
      exactly when every close that leaves another channel of its peer open also leaves something on the lists. */
  lemma {:induction false} WrittenLifetimeExact(cfg: Config, m: Manager, es: seq<Event>)
    requires OpenRegistered(m)
    ensures KeptAlong(Written, cfg, m, es) <==> SafeCloses(cfg, m, es)
    decreases |es|
  {
    if es == [] {
    } else {
      WrittenStepKeeps(cfg, m, es[0]);
      var m2 := Step(Written, cfg, m, es[0]);
      if OpenRegistered(m2) {
        WrittenLifetimeExact(cfg, m2, es[1..]);
      }
    }
  }

  /** The close of a channel whose peer has no other channel open. */
  predicate IsLastClose(m: Manager, e: Event) {
    e.EClose? && e.k < |m.channels| && Closable(m.channels[e.k]) && !AnotherOpen(m, e.k, m.channels[e.k].peer)
  }

  /** Every last close of the run leaves its peer unregistered. */
  predicate LastClosesDrop(v: Variant, cfg: Config, m: Manager, es: seq<Event>)
    decreases |es|
  {
    es == []
    || ((IsLastClose(m, es[0]) ==> m.channels[es[0].k].peer !in Step(v, cfg, m, es[0]).links)
        && LastClosesDrop(v, cfg, Step(v, cfg, m, es[0]), es[1..]))
  }

  /** A last close finds nothing on the lists of a registered peer but what it takes off them itself. */
  predicate NothingLeft(m: Manager, e: Event) {
    IsLastClose(m, e) ==>
      var c := m.channels[e.k];
      c.peer !in m.links || !StaysListed(m.links[c.peer], c)
  }

  predicate NothingLeftAlong(cfg: Config, m: Manager, es: seq<Event>)
    decreases |es|
  {
    es == [] || (NothingLeft(m, es[0]) && NothingLeftAlong(cfg, Step(Written, cfg, m, es[0]), es[1..]))
  }

  /** As written, from every state and for any mixture of roles: the last closes of a run all drop their peer exactly
      when each of them finds nothing else listed. By WrittenListsAnnounced, what is listed is what was announced on
      the registered connection. */
  lemma {:induction false} WrittenLastCloseExact(cfg: Config, m: Manager, es: seq<Event>)
    ensures LastClosesDrop(Written, cfg, m, es) <==> NothingLeftAlong(cfg, m, es)
    decreases |es|
  {
    if es == [] {
    } else {
      if IsLastClose(m, es[0]) {
        LastCloseStep(cfg, m, es[0]);
      }
      WrittenLastCloseExact(cfg, Step(Written, cfg, m, es[0]), es[1..]);
    }
  }

  lemma LastCloseStep(cfg: Config, m: Manager, e: Event)
    requires IsLastClose(m, e)
    ensures m.channels[e.k].peer !in Step(Written, cfg, m, e).links <==> NothingLeft(m, e)
  {
  }

  // ---------------------------------------------------------------- whose offers are let in, and what rides on them

  /** The i-th event is an offer of the peer that was let in. */
  predicate AdmittedAt(cfg: Config, es: seq<Event>, i: nat, peer: string) {
    i < |es| && es[i].EOffer? && es[i].from == peer && Admitted(cfg, es[i].from, es[i].to)
  }

  lemma StepPcs(v: Variant, cfg: Config, m: Manager, e: Event, k: nat)
    requires k < |Step(v, cfg, m, e).pcs|
    ensures var pc := Step(v, cfg, m, e).pcs[k];
            if k < |m.pcs| then pc == m.pcs[k]
            else if pc.forChannel then e.EOpen? && e.peer == pc.peer
            else e.EOffer? && e.from == pc.peer && Admitted(cfg, e.from, e.to)
  {
  }

  /** In either reading, every peer connection that was not made for a channel here goes back to an offer of its peer
      that was let in. */
  lemma {:induction false} OfferedWereAdmitted(v: Variant, cfg: Config, es: seq<Event>, k: nat)
    requires var m := Run(v, cfg, EMPTY, es);
             k < |m.pcs| && !m.pcs[k].forChannel
    ensures exists i: nat :: AdmittedAt(cfg, es, i, Run(v, cfg, EMPTY, es).pcs[k].peer)
    decreases |es|
  {
    if es == [] {
      assert false;
    } else {
      var n := |es| - 1;
      var init := es[..n];
      assert es == init + [es[n]];
      RunSnoc(v, cfg, EMPTY, init, es[n]);
      var before := Run(v, cfg, EMPTY, init);
      StepPcs(v, cfg, before, es[n], k);
      var peer := Run(v, cfg, EMPTY, es).pcs[k].peer;
      if k < |before.pcs| {
        OfferedWereAdmitted(v, cfg, init, k);
        var i: nat :| AdmittedAt(cfg, init, i, peer);
        assert AdmittedAt(cfg, es, i, peer);
      } else {
        assert AdmittedAt(cfg, es, n, peer);
      }
    }
  }

  /** In every run of either reading, an offer that is let in leaves its peer registered with a new connection, not
      made for a channel and with empty lists; any other offer changes nothing. */
  lemma OfferAdmittedExact(v: Variant, cfg: Config, es: seq<Event>, i: nat)
    requires i < |es| && es[i].EOffer?
    ensures var before, after := Run(v, cfg, EMPTY, es[..i]), Run(v, cfg, EMPTY, es[..i + 1]);
            var from, n := es[i].from, |before.pcs|;
            if Admitted(cfg, from, es[i].to) then
              from in after.links && after.links[from] == Link(n, [], map[])
              && after.pcs == before.pcs + [Pc(from, false)]
            else after == before
  {
    assert es[..i + 1] == es[..i] + [es[i]];
    RunSnoc(v, cfg, EMPTY, es[..i], es[i]);
  }

  /** A channel that was announced rides on a connection made for an offer of its peer. */
  predicate RemoteOffered(m: Manager) {
    PcsMatch(m)
    && forall k :: 0 <= k < |m.channels| && m.channels[k].role.Remote? ==>
         var c := m.channels[k];
         c.pc < |m.pcs| && m.pcs[c.pc] == Pc(c.peer, false)
  }

  lemma StepRemoteOffered(v: Variant, cfg: Config, m: Manager, e: Event)
    requires RemoteOffered(m)
    ensures RemoteOffered(Step(v, cfg, m, e))
  {
    match e
    case EOpen(peer, id) =>
    case EAnnounce(peer, name) => AnnounceOffered(m, peer, name);
    case EOffer(from, to) => SlotOfferOffered(cfg, m, from, to);
    case EClose(k) => CloseOffered(v, m, k);
  }

  lemma AnnounceOffered(m: Manager, peer: string, name: string)
    requires RemoteOffered(m)
    ensures RemoteOffered(Announce(m, peer, name))
  {
  }

  lemma SlotOfferOffered(cfg: Config, m: Manager, from: string, to: string)
    requires RemoteOffered(m)
    ensures RemoteOffered(SlotOffer(cfg, m, from, to))
  {
    if !Refused(cfg, from, to) {
      OfferChannels(cfg, m, from, to);
    }
  }

  lemma CloseOffered(v: Variant, m: Manager, k: nat)
    requires RemoteOffered(m)
    ensures RemoteOffered(CloseChannel(v, m, k))
  {
  }

  lemma {:induction false} RunRemoteOffered(v: Variant, cfg: Config, m: Manager, es: seq<Event>)
    requires RemoteOffered(m)
    ensures RemoteOffered(Run(v, cfg, m, es))
    decreases |es|
  {
    if es == [] {
    } else {
      StepRemoteOffered(v, cfg, m, es[0]);
      RunRemoteOffered(v, cfg, Step(v, cfg, m, es[0]), es[1..]);
    }
  }

  /** In every run of either reading, a connector is made only for a channel that was announced on a connection which
      goes back to an offer of the same peer that was let in. */
  lemma ConnectorsRideOnOffers(v: Variant, cfg: Config, es: seq<Event>, k: nat)
    requires var m := Run(v, cfg, EMPTY, es);
             k < |m.channels| && m.channels[k].role.Remote?
    ensures exists i: nat :: AdmittedAt(cfg, es, i, Run(v, cfg, EMPTY, es).channels[k].peer)
  {
    RunRemoteOffered(v, cfg, EMPTY, es);
    OfferedWereAdmitted(v, cfg, es, Run(v, cfg, EMPTY, es).channels[k].pc);
  }

  predicate OnList(m: Manager, p: string, id: string)
    requires p in m.links
  {
    id in m.links[p].channel || id in m.links[p].server
  }

  lemma {:induction false} RunSnoc(v: Variant, cfg: Config, m: Manager, es: seq<Event>, e: Event)
    ensures Run(v, cfg, m, es + [e]) == Step(v, cfg, Run(v, cfg, m, es), e)
    decreases |es|
  {
    if es == [] {
      RunOne(v, cfg, m, e, []);
      assert [e] + [] == [e] == es + [e];
    } else {
      assert (es + [e])[1..] == es[1..] + [e];
      RunSnoc(v, cfg, Step(v, cfg, m, es[0]), es[1..], e);
    }
  }

  /** A written step lists nothing but an announced label. */
  lemma WrittenStepLists(cfg: Config, m: Manager, e: Event, p: string, id: string)
    requires p in Step(Written, cfg, m, e).links && OnList(Step(Written, cfg, m, e), p, id)
    ensures p in m.links && m.links[p].pc == Step(Written, cfg, m, e).links[p].pc
    ensures OnList(m, p, id) || e == EAnnounce(p, id)
  {
    match e
    case EOpen(peer, _) =>
    case EAnnounce(peer, name) =>
    case EOffer(from, _) =>
    case EClose(k) =>
      if p in m.links && k < |m.channels| {
        RemoveOneKeeps(m.links[p].channel, m.channels[k].id, id);
      }
  }

  /** The i-th event announced `id` to `p` on the connection that is registered at the end of the run. */
  predicate AnnouncedAt(cfg: Config, es: seq<Event>, i: nat, p: string, id: string) {
    i < |es| && es[i] == EAnnounce(p, id)
    && var before, after := Run(Written, cfg, EMPTY, es[..i]), Run(Written, cfg, EMPTY, es);
       p in before.links && p in after.links && before.links[p].pc == after.links[p].pc
  }

  /** As written, whatever is listed for a peer after a run was announced on its registered connection. */
  lemma {:induction false} WrittenListsAnnounced(cfg: Config, es: seq<Event>, p: string, id: string)
    requires var m := Run(Written, cfg, EMPTY, es);
             p in m.links && OnList(m, p, id)
    ensures exists i: nat :: AnnouncedAt(cfg, es, i, p, id)
    decreases |es|
  {
    if es == [] {
      assert false;
    } else {
      var n := |es| - 1;
      var init, e := es[..n], es[n];
      assert es == init + [e];
      RunSnoc(Written, cfg, EMPTY, init, e);
      var before := Run(Written, cfg, EMPTY, init);
      WrittenStepLists(cfg, before, e, p, id);
      if OnList(before, p, id) {
        WrittenListsAnnounced(cfg, init, p, id);
        var i: nat :| AnnouncedAt(cfg, init, i, p, id);
        assert es[..i] == init[..i];
        assert AnnouncedAt(cfg, es, i, p, id);
      } else {
        assert AnnouncedAt(cfg, es, n, p, id);
      }
    }
  }

  /** Two channels to one peer; closing the first unregisters the connection under the second. */
  lemma WrittenDropsSharedConnection(cfg: Config, p: string, a: string, b: string)
    ensures var m := Run(Written, cfg, EMPTY, [EOpen(p, a), EOpen(p, b), EClose(0)]);
            IsOpen(m, 1) && m.channels[1].peer == p && p !in m.links
  {
    var m1 := OpenLocal(Written, EMPTY, p, a);
    var m2 := OpenLocal(Written, m1, p, b);
    var m3 := CloseChannel(Written, m2, 0);
    assert m3.channels[1] == m2.channels[1];
    RunOne(Written, cfg, m2, EClose(0), []);
    RunOne(Written, cfg, m1, EOpen(p, b), [EClose(0)]);
    RunOne(Written, cfg, EMPTY, EOpen(p, a), [EOpen(p, b), EClose(0)]);
    assert [EOpen(p, a)] + [EOpen(p, b), EClose(0)] == [EOpen(p, a), EOpen(p, b), EClose(0)];
    assert [EOpen(p, b)] + [EClose(0)] == [EOpen(p, b), EClose(0)];
    assert [EClose(0)] + [] == [EClose(0)];
  }

  predicate NoOpens(es: seq<Event>) {
    forall i :: 0 <= i < |es| ==> !es[i].EOpen?
  }

  /** On the offered side every channel that can still close is on its peer's server list. */
  predicate RemoteListed(m: Manager) {
    PcsMatch(m)
    && (forall p :: p in m.links ==> !m.pcs[m.links[p].pc].forChannel && m.links[p].channel == [])
    && forall k :: 0 <= k < |m.channels| && Closable(m.channels[k]) ==>
         var c := m.channels[k];
         c.role.Remote? && c.peer in m.links && c.id in m.links[c.peer].server && m.links[c.peer].server[c.id] == k
  }

  lemma WrittenServerStep(cfg: Config, m: Manager, e: Event)
    requires RemoteListed(m) && !e.EOpen?
    ensures RemoteListed(Step(Written, cfg, m, e)) && m.links.Keys <= Step(Written, cfg, m, e).links.Keys
  {
    match e
    case EAnnounce(peer, id) => WrittenServerAnnounce(m, peer, id);
    case EOffer(from, to) => WrittenServerOffer(cfg, m, from, to);
    case EClose(k) => WrittenServerClose(m, k);
  }

  lemma WrittenServerAnnounce(m: Manager, peer: string, name: string)
    requires RemoteListed(m)
    ensures RemoteListed(Announce(m, peer, name))
  {
  }

  lemma WrittenServerOffer(cfg: Config, m: Manager, from: string, to: string)
    requires RemoteListed(m)
    ensures RemoteListed(SlotOffer(cfg, m, from, to))
  {
  }

  /** The id is looked for in the wrong list, so the server list stays and keeps the entry. */
  lemma WrittenServerClose(m: Manager, k: nat)
    requires RemoteListed(m)
    ensures RemoteListed(CloseChannel(Written, m, k)) && CloseChannel(Written, m, k).links.Keys == m.links.Keys
  {
  }

  lemma {:induction false} WrittenServerRun(cfg: Config, m: Manager, es: seq<Event>)
    requires RemoteListed(m) && NoOpens(es)
    ensures RemoteListed(Run(Written, cfg, m, es)) && m.links.Keys <= Run(Written, cfg, m, es).links.Keys
    decreases |es|
  {
    if es == [] {
    } else {
      WrittenServerStep(cfg, m, es[0]);
      WrittenServerRun(cfg, Step(Written, cfg, m, es[0]), es[1..]);
    }
  }

  lemma {:induction false} RunAppend(v: Variant, cfg: Config, m: Manager, es: seq<Event>, more: seq<Event>)
    ensures Run(v, cfg, m, es + more) == Run(v, cfg, Run(v, cfg, m, es), more)
    decreases |es|
  {
    if es == [] {
      assert es + more == more;
    } else {
      assert (es + more)[1..] == es[1..] + more;
      RunAppend(v, cfg, Step(v, cfg, m, es[0]), es[1..], more);
    }
  }

  /** As written, on a side that only receives offers and announcements, a peer whose offer was accepted once is
      registered ever after, whatever is closed. */
  lemma WrittenServerNeverDrops(cfg: Config, es: seq<Event>, i: nat)
    requires NoOpens(es) && i < |es| && es[i].EOffer? && !Refused(cfg, es[i].from, es[i].to)
    ensures es[i].from in Run(Written, cfg, EMPTY, es).links
  {
    var init, rest := es[..i], es[i..];
    assert es == init + rest;
    RunAppend(Written, cfg, EMPTY, init, rest);
    var m := Run(Written, cfg, EMPTY, init);
    WrittenServerRun(cfg, EMPTY, init);
    WrittenServerStep(cfg, m, es[i]);
    WrittenServerRun(cfg, Step(Written, cfg, m, es[i]), rest[1..]);
  }

  /** One offer, one announced channel, and its close: as written the peer stays registered with no channel open, as
      intended it is dropped. */
  lemma WrittenKeepsClosedPeer(cfg: Config, p: string, q: string, a: string)
    requires !Refused(cfg, p, q)
    ensures var es := [EOffer(p, q), EAnnounce(p, a), EClose(0)];
            var m, n := Run(Written, cfg, EMPTY, es), Run(Intended, cfg, EMPTY, es);
            p in m.links && (forall k: nat :: !IsOpen(m, k)) && p !in n.links
  {
    var m1 := SlotOffer(cfg, EMPTY, p, q);
    var m2 := Announce(m1, p, a);
    assert m2.links[p].server == map[a := 0];
    RunThree(Written, cfg, EOffer(p, q), EAnnounce(p, a), EClose(0));
    RunThree(Intended, cfg, EOffer(p, q), EAnnounce(p, a), EClose(0));
  }

  lemma RunThree(v: Variant, cfg: Config, e1: Event, e2: Event, e3: Event)
    ensures Run(v, cfg, EMPTY, [e1, e2, e3]) == Step(v, cfg, Step(v, cfg, Step(v, cfg, EMPTY, e1), e2), e3)
  {
    var m1 := Step(v, cfg, EMPTY, e1);
    RunOne(v, cfg, EMPTY, e1, [e2, e3]);
    RunOne(v, cfg, m1, e2, [e3]);
    RunOne(v, cfg, Step(v, cfg, m1, e2), e3, []);
    assert [e1] + [e2, e3] == [e1, e2, e3] && [e2] + [e3] == [e2, e3] && [e3] + [] == [e3];
  }
}
