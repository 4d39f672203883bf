/** CServerSocks::m_ConnectServer: the live server connectors, keyed by peer user and channel id. */
module ConnectorRegistry {
  import opened Bytes
  import opened OfferGuard
  import ChannelIds

  /** Open: it holds its data channel. Closed: Close() has cleared the channel. Released: dropped by Stop. */
  datatype Life = Open | Closed | Released

  datatype Connector = Connector(peer: string, id: string, life: Life, closes: nat)

  /** GetPeerUser and GetId: empty once the data channel is gone. */
  function PeerUser(c: Connector): string {
    if c.life.Open? then c.peer else ""
  }

  function ChannelId(c: Connector): string {
    if c.life.Open? then c.id else ""
  }

  /** What happens to connectors, in order. */
  datatype Op = Shut(who: nat) | Stored(peer: string, id: string, who: nat) | Cleared

  /** A null shared pointer is None. Connectors are numbered in the order of their creation. */
  type Table = map<string, map<string, Option<nat>>>

  datatype Registry = Registry(table: Table, connectors: seq<Connector>, log: seq<Op>)

  const EMPTY := Registry(map[], [], [])

  /** The non-null entry under a key. */
  function Entry(t: Table, peer: string, id: string): Option<nat> {
    if peer in t && id in t[peer] then t[peer][id] else None
  }

  /** operator[] of the outer map: a missing inner map is created. */
  function Row(t: Table, peer: string): map<string, Option<nat>> {
    if peer in t then t[peer] else map[]
  }

  /** m_ConnectServer[peer][id] as an expression: a missing entry is created as null. */
  function Touch(t: Table, peer: string, id: string): Table {
    t[peer := Row(t, peer)[id := Entry(t, peer, id)]]
  }

  function Erase(t: Table, peer: string, id: string): Table {
    t[peer := Row(t, peer) - {id}]
  }

  /** CloseConnectServer: whatever is registered under the connector's own key is removed and closed. */
  function CloseConnectServer(r: Registry, k: nat): Registry
    requires k < |r.connectors|
  {
    var peer, id := PeerUser(r.connectors[k]), ChannelId(r.connectors[k]);
    var svr := Entry(r.table, peer, id);
    var r1 := r.(table := Erase(Touch(r.table, peer, id), peer, id));
    if svr.Some? && svr.value < |r.connectors| then
      var c := r.connectors[svr.value];
      r1.(connectors := r.connectors[svr.value := c.(life := Closed, closes := c.closes + 1)],
          log := r.log + [Shut(svr.value)])
    else r1
  }

  /** The table with a new open connector stored under a key. */
  function WithNew(r: Registry, from: string, id: string): Registry {
    var n := |r.connectors|;
    Registry(r.table[from := Row(r.table, from)[id := Some(n)]],
             r.connectors + [Connector(from, id, Open, 0)],
             r.log + [Stored(from, id, n)])
  }

  function SlotOffer(cfg: Config, r: Registry, from: string, to: string, id: string): Registry {
    if Refused(cfg, from, to) then r
    else
      var r1 := r.(table := Touch(r.table, from, id));
      var held := Entry(r1.table, from, id);
      var r2 := if held.Some? && held.value < |r1.connectors| then CloseConnectServer(r1, held.value) else r1;
      WithNew(r2, from, id)
  }

  /** slotRemotePeerDisconnectServer and slotError, with the connector that sent the signal. */
  function Signal(r: Registry, k: nat): Registry {
    if k >= |r.connectors| then r
    else if PeerUser(r.connectors[k]) == "" || ChannelId(r.connectors[k]) == "" then r
    else CloseConnectServer(r, k)
  }

  /** Stop: the map is cleared without closing anything, and the connectors go with it. */
  function Stop(r: Registry): Registry {
    Registry(map[],
             seq(|r.connectors|, k requires 0 <= k < |r.connectors| =>
               if r.connectors[k].life.Open? then r.connectors[k].(life := Released) else r.connectors[k]),
             r.log + [Cleared])
  }

  datatype Event =
    | Offer(from: string, to: string, id: string)
    | SignalFrom(k: nat)            // a disconnect or an error of connector k, however late
    | Stopped

  function Step(cfg: Config, r: Registry, e: Event): Registry {
    match e
    case Offer(from, to, id) => SlotOffer(cfg, r, from, to, id)
    case SignalFrom(k) => Signal(r, k)
    case Stopped => Stop(r)
  }

  function Run(cfg: Config, r: Registry, es: seq<Event>): Registry
    decreases |es|
  {
    if es == [] then r else Run(cfg, Step(cfg, r, es[0]), es[1..])
  }

  // ---------------------------------------------------------------- the invariant

  /** Every non-null entry is an open connector under its own key. */
  ghost predicate EntriesOpen(t: Table, cs: seq<Connector>) {
    forall peer, id :: Entry(t, peer, id).Some? ==>
      var k := Entry(t, peer, id).value;
      k < |cs| && cs[k].life.Open? && cs[k].peer == peer && cs[k].id == id
  }

  /** Every open connector is the entry under its key. */
  predicate OpenEntered(t: Table, cs: seq<Connector>) {
    forall k :: 0 <= k < |cs| && cs[k].life.Open? ==> Entry(t, cs[k].peer, cs[k].id) == Some(k)
  }

  predicate ClosedOnce(cs: seq<Connector>) {
    forall k :: 0 <= k < |cs| ==> cs[k].closes == if cs[k].life.Closed? then 1 else 0
  }

  /** The connector that holds a key according to the log. */
  function Holder(log: seq<Op>, peer: string, id: string): Option<nat> {
    if log == [] then None
    else
      var before := Holder(log[..|log| - 1], peer, id);
      match log[|log| - 1]
      case Shut(k) => if before == Some(k) then None else before
      case Stored(p, i, k) => if p == peer && i == id then Some(k) else before
      case Cleared => None
  }

  /** No connector was ever stored over one that still held the key. */
  predicate OrderlyLog(log: seq<Op>) {
    forall j :: 0 <= j < |log| && log[j].Stored? ==> Holder(log[..j], log[j].peer, log[j].id).None?
  }

  ghost predicate LogMatches(t: Table, log: seq<Op>) {
    forall peer, id :: Holder(log, peer, id) == Entry(t, peer, id)
  }

  ghost predicate Inv(r: Registry) {
    EntriesOpen(r.table, r.connectors) && OpenEntered(r.table, r.connectors) && ClosedOnce(r.connectors)
    && LogMatches(r.table, r.log) && OrderlyLog(r.log)
  }

  lemma LogPush(log: seq<Op>, o: Op, peer: string, id: string)
    ensures Holder(log + [o], peer, id) ==
      var before := Holder(log, peer, id);
      match o
      case Shut(k) => if before == Some(k) then None else before
      case Stored(p, i, k) => if p == peer && i == id then Some(k) else before
      case Cleared => None
  {
    assert (log + [o])[..|log|] == log;
  }

  lemma OrderlyPush(log: seq<Op>, o: Op)
    requires OrderlyLog(log)
    requires o.Stored? ==> Holder(log, o.peer, o.id).None?
    ensures OrderlyLog(log + [o])
  {
    forall j | 0 <= j < |log + [o]| && (log + [o])[j].Stored?
      ensures Holder((log + [o])[..j], (log + [o])[j].peer, (log + [o])[j].id).None?
    {
      if j < |log| {
        assert (log + [o])[..j] == log[..j];
      } else {
        assert (log + [o])[..j] == log;
      }
    }
  }

  /** Looking an entry up with operator[] changes no entry. */
  lemma TouchKeeps(t: Table, peer: string, id: string, p: string, i: string)
    ensures Entry(Touch(t, peer, id), p, i) == Entry(t, p, i)
  {
  }

  lemma EraseEntry(t: Table, peer: string, id: string, p: string, i: string)
    ensures Entry(Erase(t, peer, id), p, i) == if p == peer && i == id then None else Entry(t, p, i)
  {
  }

  /** Closing the registered connector removes exactly its entry and closes exactly it. */
  lemma CloseRegistered(r: Registry, k: nat)
    requires Inv(r) && k < |r.connectors| && r.connectors[k].life.Open?
    ensures var r1 := CloseConnectServer(r, k);
            var c := r.connectors[k];
            Inv(r1)
            && r1.connectors == r.connectors[k := c.(life := Closed, closes := 1)]
            && r1.log == r.log + [Shut(k)]
            && forall p, i :: Entry(r1.table, p, i) == if p == c.peer && i == c.id then None else Entry(r.table, p, i)
  {
    var r1 := CloseConnectServer(r, k);
    var c := r.connectors[k];
    assert Entry(r.table, c.peer, c.id) == Some(k);
    forall p, i
      ensures Entry(r1.table, p, i) == if p == c.peer && i == c.id then None else Entry(r.table, p, i)
      ensures Holder(r1.log, p, i) == Entry(r1.table, p, i)
    {
      EraseEntry(Touch(r.table, c.peer, c.id), c.peer, c.id, p, i);
      TouchKeeps(r.table, c.peer, c.id, p, i);
      LogPush(r.log, Shut(k), p, i);
      assert Holder(r.log, p, i) == Entry(r.table, p, i);
    }
    OrderlyPush(r.log, Shut(k));
  }

  lemma TouchInv(r: Registry, peer: string, id: string)
    requires Inv(r)
    ensures Inv(r.(table := Touch(r.table, peer, id)))
    ensures forall p, i :: Entry(Touch(r.table, peer, id), p, i) == Entry(r.table, p, i)
  {
    forall p, i
      ensures Entry(Touch(r.table, peer, id), p, i) == Entry(r.table, p, i)
    {
      TouchKeeps(r.table, peer, id, p, i);
    }
  }

  lemma StoreEntry(r: Registry, from: string, id: string, p: string, i: string)
    ensures Entry(WithNew(r, from, id).table, p, i)
         == if p == from && i == id then Some(|r.connectors|) else Entry(r.table, p, i)
  {
  }

  lemma StoreOpen(r: Registry, from: string, id: string)
    requires EntriesOpen(r.table, r.connectors) && OpenEntered(r.table, r.connectors)
    requires Entry(r.table, from, id).None?
    ensures var r1 := WithNew(r, from, id);
            EntriesOpen(r1.table, r1.connectors) && OpenEntered(r1.table, r1.connectors)
  {
    var r1 := WithNew(r, from, id);
    forall p, i | Entry(r1.table, p, i).Some?
      ensures var k := Entry(r1.table, p, i).value;
              k < |r1.connectors| && r1.connectors[k].life.Open?
              && r1.connectors[k].peer == p && r1.connectors[k].id == i
    {
      StoreEntry(r, from, id, p, i);
      assert Entry(r.table, p, i).Some? || (p == from && i == id);
    }
    forall k | 0 <= k < |r1.connectors| && r1.connectors[k].life.Open?
      ensures Entry(r1.table, r1.connectors[k].peer, r1.connectors[k].id) == Some(k)
    {
      StoreEntry(r, from, id, r1.connectors[k].peer, r1.connectors[k].id);
    }
  }

  /** Storing a new connector under a free key. */
  lemma StoreInv(r: Registry, from: string, id: string)
    requires Inv(r) && Entry(r.table, from, id).None?
    ensures Inv(WithNew(r, from, id))
  {
    var r1 := WithNew(r, from, id);
    var o := Stored(from, id, |r.connectors|);
    StoreOpen(r, from, id);
    forall p, i
      ensures Holder(r1.log, p, i) == Entry(r1.table, p, i)
    {
      LogPush(r.log, o, p, i);
      StoreEntry(r, from, id, p, i);
      assert Holder(r.log, p, i) == Entry(r.table, p, i);
    }
    assert Holder(r.log, from, id) == Entry(r.table, from, id);
    OrderlyPush(r.log, o);
  }

  /** An accepted offer: a connector that held the key is closed exactly once, and only then is the new one stored. */
  lemma OfferReplaces(cfg: Config, r: Registry, from: string, to: string, id: string)
    requires Inv(r)
    ensures var r1 := SlotOffer(cfg, r, from, to, id);
            Inv(r1)
            && (Refused(cfg, from, to) ==> r1 == r)
            && (!Refused(cfg, from, to) ==>
                  var n := |r.connectors|;
                  Entry(r1.table, from, id) == Some(n)
                  && match Entry(r.table, from, id)
                     case None =>
                       r1.connectors == r.connectors + [Connector(from, id, Open, 0)]
                       && r1.log == r.log + [Stored(from, id, n)]
                     case Some(k) =>
                       k < n && r1.connectors == r.connectors[k := r.connectors[k].(life := Closed, closes := 1)]
                                                + [Connector(from, id, Open, 0)]
                       && r1.log == r.log + [Shut(k)] + [Stored(from, id, n)])
  {
    if !Refused(cfg, from, to) {
      TouchInv(r, from, id);
      var r1 := r.(table := Touch(r.table, from, id));
      var held := Entry(r1.table, from, id);
      if held.Some? {
        CloseRegistered(r1, held.value);
        StoreInv(CloseConnectServer(r1, held.value), from, id);
      } else {
        StoreInv(r1, from, id);
      }
    }
  }

  /** A signal closes its sender exactly when the sender is open and has a name; a late signal of a connector that
      is closed changes nothing, so it never touches a successor under the same key. */
  lemma SignalExact(r: Registry, k: nat)
    requires Inv(r) && k < |r.connectors|
    ensures Inv(Signal(r, k))
    ensures var c := r.connectors[k];
            if c.life.Open? && c.peer != "" && c.id != "" then
              Signal(r, k).connectors == r.connectors[k := c.(life := Closed, closes := 1)]
            else Signal(r, k) == r
  {
    if r.connectors[k].life.Open? {
      CloseRegistered(r, k);
    }
  }

  /** Stopping releases every open connector and forgets it; nothing is closed. */
  lemma StopInv(r: Registry)
    requires Inv(r)
    ensures Inv(Stop(r))
    ensures forall p, i :: Entry(Stop(r).table, p, i) == None
    ensures |Stop(r).connectors| == |r.connectors|
    ensures forall k :: 0 <= k < |r.connectors| ==>
              !Stop(r).connectors[k].life.Open? && Stop(r).connectors[k].closes == r.connectors[k].closes
  {
    forall p, i
      ensures Holder(Stop(r).log, p, i) == Entry(Stop(r).table, p, i)
    {
      LogPush(r.log, Cleared, p, i);
    }
    OrderlyPush(r.log, Cleared);
  }

  lemma {:induction false} RunInv(cfg: Config, r: Registry, es: seq<Event>)
    requires Inv(r)
    ensures Inv(Run(cfg, r, es))
    decreases |es|
  {
    if es == [] {
    } else {
      match es[0] {
        case Offer(from, to, id) => OfferReplaces(cfg, r, from, to, id);
        case SignalFrom(k) => if k < |r.connectors| { SignalExact(r, k); }
        case Stopped => StopInv(r);
      }
      RunInv(cfg, Step(cfg, r, es[0]), es[1..]);
    }
  }

  /** After every sequence of offers, signals and stops: the non-null entries are exactly the open connectors, each
      under its own key and so at most one per key; every closed connector was closed once; and no connector was
      stored before the one that held its key was closed. */
  lemma RegistryHoldsOpenConnectors(cfg: Config, es: seq<Event>)
    ensures var r := Run(cfg, EMPTY, es);
            (forall k :: 0 <= k < |r.connectors| ==>
               (r.connectors[k].life.Open? <==>
                  exists peer, id :: Entry(r.table, peer, id) == Some(k)))
            && (forall peer, id, k :: Entry(r.table, peer, id) == Some(k) ==>
                  k < |r.connectors| && r.connectors[k].peer == peer && r.connectors[k].id == id)
            && ClosedOnce(r.connectors) && OrderlyLog(r.log)
  {
    RunInv(cfg, EMPTY, es);
    var r := Run(cfg, EMPTY, es);
    forall k | 0 <= k < |r.connectors| && r.connectors[k].life.Open?
      ensures exists peer, id :: Entry(r.table, peer, id) == Some(k)
    {
      assert Entry(r.table, r.connectors[k].peer, r.connectors[k].id) == Some(k);
    }
  }

  // ---------------------------------------------------------------- offers with issued ids

  lemma {:induction false} RunSnoc(cfg: Config, r: Registry, es: seq<Event>, e: Event)
    ensures Run(cfg, r, es + [e]) == Step(cfg, Run(cfg, r, es), e)
    decreases |es|
  {
    if es == [] {
      assert [e][1..] == [];
      assert es + [e] == [e];
    } else {
      assert (es + [e])[1..] == es[1..] + [e];
      RunSnoc(cfg, Step(cfg, r, es[0]), es[1..], e);
    }
  }

  /** The i-th event offers a channel under this key. */
  predicate OffersAt(es: seq<Event>, i: nat, peer: string, id: string) {
    i < |es| && es[i].Offer? && es[i].from == peer && es[i].id == id
  }

  lemma StepConnectors(cfg: Config, r: Registry, e: Event, k: nat)
    requires Inv(r) && k < |Step(cfg, r, e).connectors|
    ensures var c := Step(cfg, r, e).connectors[k];
            if k < |r.connectors| then c.peer == r.connectors[k].peer && c.id == r.connectors[k].id
            else e.Offer? && e.from == c.peer && e.id == c.id && Admitted(cfg, e.from, e.to)
  {
    match e {
      case Offer(from, to, id) => OfferConnectors(cfg, r, from, to, id, k);
      case SignalFrom(j) => SignalConnectors(r, j);
      case Stopped =>
    }
  }

  lemma OfferConnectors(cfg: Config, r: Registry, from: string, to: string, id: string, k: nat)
    requires Inv(r) && k < |SlotOffer(cfg, r, from, to, id).connectors|
    ensures var c := SlotOffer(cfg, r, from, to, id).connectors[k];
            if k < |r.connectors| then c.peer == r.connectors[k].peer && c.id == r.connectors[k].id
            else from == c.peer && id == c.id && Admitted(cfg, from, to)
  {
    OfferReplaces(cfg, r, from, to, id);
  }

  lemma SignalConnectors(r: Registry, j: nat)
    requires Inv(r)
    ensures var cs := Signal(r, j).connectors;
            |cs| == |r.connectors|
            && forall k :: 0 <= k < |cs| ==> cs[k].peer == r.connectors[k].peer && cs[k].id == r.connectors[k].id
  {
    if j < |r.connectors| {
      SignalExact(r, j);
    }
  }

  predicate AdmittedAt(cfg: Config, es: seq<Event>, i: nat, peer: string, id: string) {
    OffersAt(es, i, peer, id) && Admitted(cfg, es[i].from, es[i].to)
  }

  /** Every connector was made for an offer under its key that was let in. */
  lemma {:induction false} ConnectorsWereOffered(cfg: Config, es: seq<Event>, k: nat)
    requires k < |Run(cfg, EMPTY, es).connectors|
    ensures var c := Run(cfg, EMPTY, es).connectors[k];
            exists i: nat :: AdmittedAt(cfg, es, i, c.peer, c.id)
    decreases |es|
  {
    if es == [] {
      assert false;
    } else {
      var n := |es| - 1;
      var init := es[..n];
      assert es == init + [es[n]];
      RunSnoc(cfg, EMPTY, init, es[n]);
      RunInv(cfg, EMPTY, init);
      var r := Run(cfg, EMPTY, init);
      StepConnectors(cfg, r, es[n], k);
      var c := Run(cfg, EMPTY, es).connectors[k];
      if k < |r.connectors| {
        ConnectorsWereOffered(cfg, init, k);
        var i: nat :| AdmittedAt(cfg, init, i, c.peer, c.id);
        assert AdmittedAt(cfg, es, i, c.peer, c.id);
      } else {
        assert AdmittedAt(cfg, es, n, c.peer, c.id);
      }
    }
  }

  /** In every run, an offer that is let in leaves a new open connector under its key, and any other offer changes
      nothing. */
  lemma OfferAdmittedExact(cfg: Config, es: seq<Event>, i: nat)
    requires i < |es| && es[i].Offer?
    ensures var before, after := Run(cfg, EMPTY, es[..i]), Run(cfg, EMPTY, es[..i + 1]);
            var from, to, id, n := es[i].from, es[i].to, es[i].id, |before.connectors|;
            if Admitted(cfg, from, to) then
              Entry(after.table, from, id) == Some(n) && |after.connectors| == n + 1
              && after.connectors[n] == Connector(from, id, Open, 0)
            else after == before
  {
    RunInv(cfg, EMPTY, es[..i]);
    assert es[..i + 1] == es[..i] + [es[i]];
    RunSnoc(cfg, EMPTY, es[..i], es[i]);
    OfferReplaces(cfg, Run(cfg, EMPTY, es[..i]), es[i].from, es[i].to, es[i].id);
  }

  /** The ids that each peer offers come from a counter of its own: `numbers[i]` is the number of the i-th offer, below
      the counter's range and used once. */
  predicate IssuedBy(es: seq<Event>, numbers: seq<nat>) {
    |numbers| == |es|
    && (forall i :: 0 <= i < |es| && es[i].Offer? ==>
          numbers[i] < ChannelIds.RANGE && es[i].id == ChannelIds.Id(numbers[i]))
    && forall i, j :: 0 <= i < j < |es| && es[i].Offer? && es[j].Offer? && es[i].from == es[j].from ==>
         numbers[i] != numbers[j]
  }

  /** Then no offer ever finds its key taken, so none of them replaces or closes a connector. */
  lemma IssuedOffersNeverReplace(cfg: Config, es: seq<Event>, numbers: seq<nat>, i: nat)
    requires IssuedBy(es, numbers) && i < |es| && es[i].Offer?
    ensures var r := Run(cfg, EMPTY, es[..i]);
            Entry(r.table, es[i].from, es[i].id).None?
            && r.connectors <= SlotOffer(cfg, r, es[i].from, es[i].to, es[i].id).connectors
  {
    var r := Run(cfg, EMPTY, es[..i]);
    RunInv(cfg, EMPTY, es[..i]);
    KeyIsFree(cfg, es, numbers, i);
    OfferReplaces(cfg, r, es[i].from, es[i].to, es[i].id);
  }

  lemma KeyIsFree(cfg: Config, es: seq<Event>, numbers: seq<nat>, i: nat)
    requires IssuedBy(es, numbers) && i < |es| && es[i].Offer?
    ensures Entry(Run(cfg, EMPTY, es[..i]).table, es[i].from, es[i].id).None?
  {
    var r := Run(cfg, EMPTY, es[..i]);
    RunInv(cfg, EMPTY, es[..i]);
    var entry := Entry(r.table, es[i].from, es[i].id);
    if entry.Some? {
      assert entry.value < |r.connectors|;
      ConnectorsWereOffered(cfg, es[..i], entry.value);
      var j: nat :| AdmittedAt(cfg, es[..i], j, es[i].from, es[i].id);
      assert es[j] == es[..i][j];
      OfferedIdsDiffer(es, numbers, j, i);
    }
  }

  lemma OfferedIdsDiffer(es: seq<Event>, numbers: seq<nat>, j: nat, i: nat)
    requires IssuedBy(es, numbers) && j < i < |es| && es[j].Offer? && es[i].Offer? && es[j].from == es[i].from
    ensures es[j].id != es[i].id
  {
    assert numbers[j] != numbers[i];
    ChannelIds.IdsCollideExact(numbers[j], numbers[i]);
  }

  // ---------------------------------------------------------------- the code as written

  class CServerSocks {
    const cfg: Config
    var connectServer: Table        // m_ConnectServer
    var connectors: seq<Connector>  // every connector made so far
    ghost var log: seq<Op>

    ghost function State(): Registry
      reads this
    {
      Registry(connectServer, connectors, log)
    }

    constructor (cfg: Config)
      ensures State() == EMPTY && this.cfg == cfg
    {
      this.cfg := cfg;
      connectServer, connectors, log := map[], [], [];
    }

    /** m_ConnectServer[peer][id] as an expression. */
    method At(peer: string, id: string) returns (svr: Option<nat>)
      modifies this`connectServer
      ensures svr == Entry(old(connectServer), peer, id)
      ensures connectServer == Touch(old(connectServer), peer, id)
    {
      var row := if peer in connectServer then connectServer[peer] else map[];
      if id !in row {
        row := row[id := None];
      }
      svr := row[id];
      connectServer := connectServer[peer := row];
      assert row == Row(old(connectServer), peer)[id := Entry(old(connectServer), peer, id)];
    }

    method CloseConnector(k: nat)
      requires k < |connectors|
      modifies this`connectors, this`log
      ensures connectors == old(connectors)[k := old(connectors)[k].(life := Closed, closes := old(connectors)[k].closes + 1)]
      ensures log == old(log) + [Shut(k)]
    {
      connectors := connectors[k := connectors[k].(life := Closed, closes := connectors[k].closes + 1)];
      log := log + [Shut(k)];
    }

    method CloseServer(k: nat)
      requires k < |connectors|
      modifies this
      ensures State() == CloseConnectServer(old(State()), k)
    {
      var peer, id := PeerUser(connectors[k]), ChannelId(connectors[k]);
      var svr := At(peer, id);
      connectServer := connectServer[peer := connectServer[peer] - {id}];
      if svr.Some? && svr.value < |connectors| {
        CloseConnector(svr.value);
      }
    }

    method OnOffer(fromUser: string, toUser: string, channelId: string)
      modifies this
      ensures State() == SlotOffer(cfg, old(State()), fromUser, toUser, channelId)
    {
      if cfg.peerUser != "" && cfg.peerUser != fromUser && cfg.signalUser != toUser {
        return;
      }
      var existing := At(fromUser, channelId);
      TouchKeeps(old(connectServer), fromUser, channelId, fromUser, channelId);
      if existing.Some? && existing.value < |connectors| {
        CloseServer(existing.value);
      }
      var n := |connectors|;
      connectors := connectors + [Connector(fromUser, channelId, Open, 0)];
      var row := if fromUser in connectServer then connectServer[fromUser] else map[];
      connectServer := connectServer[fromUser := row[channelId := Some(n)]];
      log := log + [Stored(fromUser, channelId, n)];
    }

    method OnSignal(sender: nat)
      modifies this
      ensures State() == Signal(old(State()), sender)
    {
      if sender >= |connectors| {
        return;
      }
      if PeerUser(connectors[sender]) == "" || ChannelId(connectors[sender]) == "" {
        return;
      }
      CloseServer(sender);
    }

    method OnStop()
      modifies this
      ensures State() == Stop(old(State()))
    {
      connectServer := map[];
      var i := 0;
      ghost var was := connectors;
      while i < |connectors|
        invariant 0 <= i <= |connectors| == |was|
        invariant forall j :: i <= j < |was| ==> connectors[j] == was[j]
        invariant forall j :: 0 <= j < i ==>
          connectors[j] == if was[j].life.Open? then was[j].(life := Released) else was[j]
        invariant connectServer == map[] && log == old(log)
      {
        if connectors[i].life.Open? {
          connectors := connectors[i := connectors[i].(life := Released)];
        }
        i := i + 1;
      }
      log := log + [Cleared];
      assert connectors == Stop(old(State())).connectors;
    }
  }
}
