/** CIceManager and the channel objects it serves, as they are written. */
module IceManagerObject {
  import opened IceManager
  import Lifetime = IceManagerLifetime
  import OfferGuard
  import opened Readings

  ghost predicate SameElsewhere<V>(a: map<string, V>, b: map<string, V>, from: string) {
    a - {from} == b - {from}
  }

  lemma OverwriteElsewhere(a: map<string, Link>, b: map<string, Link>, from: string, l: Link)
    requires SameElsewhere(a, b, from)
    ensures a[from := l] == b[from := l]
  {
    assert a[from := l] == (a - {from})[from := l];
    assert b[from := l] == (b - {from})[from := l];
  }

  /** The channels numbered in `done` closed, as far as they could still close. */
  function ClosedAmong(was: seq<Channel>, done: set<nat>): seq<Channel> {
    seq(|was|, j requires 0 <= j < |was| =>
      if j in done && Closable(was[j]) then was[j].(status := Closed) else was[j])
  }

  lemma ClosedAmongNone(was: seq<Channel>)
    ensures ClosedAmong(was, {}) == was
  {
  }

  lemma ClosedAmongNext(was: seq<Channel>, done: set<nat>, k: nat)
    requires k < |was|
    ensures var now := ClosedAmong(was, done);
            ClosedAmong(was, done + {k}) == if Closable(now[k]) then now[k := now[k].(status := Closed)] else now
  {
  }

  class CIceManager {
    const cfg: OfferGuard.Config
    var links: map<string, Link>    // m_PeerConnections
    var pcs: seq<Pc>                // every peer connection made so far
    var channels: seq<Channel>      // every channel object made so far
    ghost var labels: map<string, multiset<string>>

    ghost function State(): Manager
      reads this
    {
      Manager(links, pcs, channels, labels)
    }

    ghost predicate Valid()
      reads this
    {
      Lifetime.ServerOwned(State())
    }

    constructor (cfg: OfferGuard.Config)
      ensures State() == EMPTY && this.cfg == cfg && Valid()
    {
      this.cfg := cfg;
      links, pcs, channels, labels := map[], [], [], map[];
    }

    method FindOrMake(peer: string)
      requires Valid()
      modifies this
      ensures Valid() && State() == GetPeerConnect(old(State()), peer)
    {
      if peer !in links {
        links := links[peer := Link(|pcs|, [], map[])];
        pcs := pcs + [Pc(peer, true)];
        labels := labels - {peer};
      }
    }

    /** CreateDataChannel of a channel object: bData says that the channel is opened here. */
    method CreateDataChannel(peer: string, id: string, bData: bool) returns (k: nat)
      requires Valid()
      modifies this
      ensures Valid() && k == |old(channels)|
      ensures State() == CreateChannel(old(State()), peer, id, if bData then Local else Remote)
    {
      FindOrMake(peer);
      k := |channels|;
      var bServer := !bData;
      channels := channels + [Channel(peer, id, if bServer then Remote else Local, Open, links[peer].pc)];
    }

    method OnDataChannel(peer: string, name: string)
      requires Valid()
      modifies this
      ensures Valid() && State() == Announce(old(State()), peer, name)
    {
      if peer !in links {
        return;
      }
      Lifetime.StepKeepsOwned(Written, cfg, State(), EAnnounce(peer, name));
      var l := links[peer];
      if l.pc < |pcs| && pcs[l.pc].forChannel {
        links := links[peer := l.(channel := l.channel + [name])];
        labels := labels[peer := Labels(State(), peer) + multiset{name}];
      } else {
        var k := CreateDataChannel(peer, name, false);
        if name in l.server && l.server[name] < k {
          channels := channels[l.server[name] := channels[l.server[name]].(status := Dropped)];
        }
        links := links[peer := l.(server := l.server[name := k])];
        assert State().channels == Announce(old(State()), peer, name).channels;
      }
    }

    /** CloseDataChannel. */
    method Unlink(peer: string, id: string, bServer: bool) returns (ret: int)
      requires Valid()
      modifies this`links
      ensures Valid()
      ensures ret == if peer in old(links) then 0 else -1
      ensures links == if peer in old(links)
                       then Unregister(old(links), peer,
                                       Unlist(Written, old(links)[peer], if bServer then Remote else Local, id))
                       else old(links)
    {
      if peer !in links {
        return -1;
      }
      var l := links[peer];
      l := if bServer then l.(channel := RemoveOne(l.channel, id)) else l.(server := l.server - {id});
      if l.channel == [] && l.server == map[] {
        links := links - {peer};
      } else {
        links := links[peer := l];
      }
      ret := 0;
    }

    method Close(k: nat)
      requires Valid()
      modifies this`links, this`channels, this`labels
      ensures Valid() && State() == CloseChannel(Written, old(State()), k)
    {
      if k >= |channels| || !Closable(channels[k]) {
        return;
      }
      var c := channels[k];
      var _ := Unlink(c.peer, c.id, c.role.Remote?);
      if c.status.Superseded? {
        labels := labels[c.peer := Labels(State(), c.peer) - multiset{c.id}];
      }
      channels := channels[k := c.(status := Closed)];
    }

    /** Closes the connectors on a copy of a server list. */
    method CloseConnectors(server: map<string, nat>, from: string)
      requires Valid()
      requires forall id :: id in server ==> server[id] < |channels| && channels[server[id]].peer == from
      modifies this`links, this`channels, this`labels
      ensures Valid() && SameElsewhere(links, old(links), from) && SameElsewhere(labels, old(labels), from)
      ensures channels == ClosedAmong(old(channels), server.Values)
    {
      var rest := server.Keys;
      ghost var done: set<nat> := {};
      ghost var was := channels;
      ClosedAmongNone(was);
      while rest != {}
        invariant rest <= server.Keys
        invariant forall id :: id in server && id !in rest ==> server[id] in done
        invariant done <= server.Values
        invariant Valid() && SameElsewhere(links, old(links), from) && SameElsewhere(labels, old(labels), from)
        invariant channels == ClosedAmong(was, done)
        decreases |rest|
      {
        var id :| id in rest;
        CloseNext(server[id], from, was, done);
        rest := rest - {id};
        done := done + {server[id]};
      }
      assert done == server.Values;
    }

    method CloseNext(k: nat, from: string, ghost was: seq<Channel>, ghost done: set<nat>)
      requires Valid() && k < |was| && was[k].peer == from && channels == ClosedAmong(was, done)
      modifies this`links, this`channels, this`labels
      ensures Valid() && SameElsewhere(links, old(links), from) && SameElsewhere(labels, old(labels), from)
      ensures channels == ClosedAmong(was, done + {k})
    {
      ClosedAmongNext(was, done, k);
      Close(k);
    }

    /** slotOffer. */
    method OnOffer(fromUser: string, toUser: string)
      requires Valid()
      modifies this
      ensures Valid() && State() == SlotOffer(cfg, old(State()), fromUser, toUser)
    {
      if cfg.peerUser != "" && cfg.peerUser != fromUser && cfg.signalUser != toUser {
        return;
      }
      Lifetime.StepKeepsOwned(Written, cfg, State(), EOffer(fromUser, toUser));
      if fromUser in links {
        CloseConnectors(links[fromUser].server, fromUser);
      }
      var n := |pcs|;
      pcs := pcs + [Pc(fromUser, false)];
      OverwriteElsewhere(links, old(links), fromUser, Link(n, [], map[]));
      links := links[fromUser := Link(n, [], map[])];
      labels := labels - {fromUser};
      Supersede(fromUser);
      assert channels == SlotOffer(cfg, old(State()), fromUser, toUser).channels;
    }

    /** The channels still open on a connection that is gone. */
    method Supersede(from: string)
      modifies this`channels
      ensures |channels| == |old(channels)|
      ensures forall j :: 0 <= j < |channels| ==>
        channels[j] == if old(channels)[j].peer == from && old(channels)[j].status.Open?
                       then old(channels)[j].(status := Superseded) else old(channels)[j]
    {
      for i := 0 to |channels|
        invariant |channels| == |old(channels)|
        invariant forall j :: i <= j < |channels| ==> channels[j] == old(channels)[j]
        invariant forall j :: 0 <= j < i ==>
          channels[j] == if old(channels)[j].peer == from && old(channels)[j].status.Open?
                         then old(channels)[j].(status := Superseded) else old(channels)[j]
      {
        if channels[i].peer == from && channels[i].status.Open? {
          channels := channels[i := channels[i].(status := Superseded)];
        }
      }
    }
  }
}
