/** CIceManager::m_PeerConnections: one shared peer connection for all the data channels of a peer user. */
module IceManager {
  import opened OfferGuard
  import opened Readings

  /** Local: opened here by a client connector (m_bServer false). Remote: announced by the peer (m_bServer true). */
  datatype Role = Local | Remote

  /** Superseded: the peer connection under it was replaced by a new offer, but its owner has not closed it yet.
      Dropped: its connector was released without being closed. */
  datatype Status = Open | Superseded | Closed | Dropped

  datatype Channel = Channel(peer: string, id: string, role: Role, status: Status, pc: nat)

  /** strPeerConnection, with connectors named by the number of their channel. */
  datatype Link = Link(pc: nat, channel: seq<string>, server: map<string, nat>)

  /** A peer connection and whether GetPeerConnect made it, which is what its onDataChannel handler remembers. */
  datatype Pc = Pc(peer: string, forChannel: bool)

  /** `labels` is not a field of the program: for each peer, the labels announced on a connection that
      GetPeerConnect made, as far as they are still listed. No channel object owns them. */
  datatype Manager = Manager(links: map<string, Link>, pcs: seq<Pc>, channels: seq<Channel>,
                             labels: map<string, multiset<string>>)

  function Labels(m: Manager, peer: string): multiset<string> {
    if peer in m.labels then m.labels[peer] else multiset{}
  }

  /** The announced labels that a close leaves listed: the late close of a superseded local channel takes a label that
      is spelled like its id off the list. */
  function LabelsAfter(m: Manager, k: nat): multiset<string>
    requires k < |m.channels|
  {
    var c := m.channels[k];
    if c.status.Superseded? then Labels(m, c.peer) - multiset{c.id} else Labels(m, c.peer)
  }

  const EMPTY := Manager(map[], [], [], map[])

  /** QVector::removeOne. */
  function RemoveOne(s: seq<string>, x: string): seq<string> {
    if s == [] then [] else if s[0] == x then s[1..] else [s[0]] + RemoveOne(s[1..], x)
  }

  function GetPeerConnect(m: Manager, peer: string): Manager {
    if peer in m.links then m
    else Manager(m.links[peer := Link(|m.pcs|, [], map[])], m.pcs + [Pc(peer, true)], m.channels, m.labels - {peer})
  }

  /** CreateDataChannel. */
  function CreateChannel(m: Manager, peer: string, id: string, role: Role): Manager {
    var m1 := GetPeerConnect(m, peer);
    m1.(channels := m1.channels + [Channel(peer, id, role, Open, m1.links[peer].pc)])
  }

  /** Opening a channel here. As written, its id is never entered in a list. */
  function OpenLocal(v: Variant, m: Manager, peer: string, id: string): Manager {
    var m1 := CreateChannel(m, peer, id, Local);
    var l := m1.links[peer];
    if v.Written? then m1 else m1.(links := m1.links[peer := l.(channel := l.channel + [id])])
  }

  function DropConnector(channels: seq<Channel>, server: map<string, nat>, name: string): seq<Channel> {
    if name in server && server[name] < |channels|
    then channels[server[name] := channels[server[name]].(status := Dropped)]
    else channels
  }

  /** onDataChannel of the registered peer connection, followed by slotReceiverDataChannel. */
  function Announce(m: Manager, peer: string, name: string): Manager {
    if peer !in m.links then m
    else
      var l := m.links[peer];
      if l.pc < |m.pcs| && m.pcs[l.pc].forChannel then
        m.(links := m.links[peer := l.(channel := l.channel + [name])], labels := m.labels[peer := Labels(m, peer) + multiset{name}])
      else
        m.(links := m.links[peer := l.(server := l.server[name := |m.channels|])],
           channels := DropConnector(m.channels, l.server, name) + [Channel(peer, name, Remote, Open, l.pc)])
  }

  /** What CloseDataChannel takes off the lists: as written, from the list the id is not in. */
  function Unlist(v: Variant, l: Link, role: Role, id: string): Link {
    if v.Intended? == role.Local? then l.(channel := RemoveOne(l.channel, id))
    else l.(server := l.server - {id})
  }

  function Unregister(links: map<string, Link>, peer: string, l: Link): map<string, Link> {
    if l.channel == [] && l.server == map[] then links - {peer} else links[peer := l]
  }

  predicate Closable(c: Channel) { c.status.Open? || c.status.Superseded? }

  /** CDataChannelIceChannel::close, once for each channel object. */
  function CloseChannel(v: Variant, m: Manager, k: nat): Manager {
    if k >= |m.channels| || !Closable(m.channels[k]) then m
    else
      var c := m.channels[k];
      m.(links := if c.peer in m.links then Unregister(m.links, c.peer, Unlist(v, m.links[c.peer], c.role, c.id))
                  else m.links,
         channels := m.channels[k := c.(status := Closed)],
         labels := if c.status.Superseded? then m.labels[c.peer := Labels(m, c.peer) - multiset{c.id}] else m.labels)
  }

  /** The channels of `from` when its peer connection is replaced: the registered connectors are closed, and the
      others are left without a connection. */
  function Replaced(links: map<string, Link>, from: string, k: nat, c: Channel): Channel {
    if from in links && k in links[from].server.Values && c.peer == from && Closable(c) then c.(status := Closed)
    else if c.peer == from && c.status.Open? then c.(status := Superseded)
    else c
  }

  function SlotOffer(cfg: Config, m: Manager, from: string, to: string): Manager {
    if Refused(cfg, from, to) then m
    else
      Manager(m.links[from := Link(|m.pcs|, [], map[])], m.pcs + [Pc(from, false)],
              seq(|m.channels|, k requires 0 <= k < |m.channels| => Replaced(m.links, from, k, m.channels[k])),
              m.labels - {from})
  }

  datatype Event =
    | EOpen(peer: string, id: string)
    | EAnnounce(peer: string, id: string)
    | EOffer(from: string, to: string)
    | EClose(k: nat)

  function Step(v: Variant, cfg: Config, m: Manager, e: Event): Manager {
    match e
    case EOpen(peer, id) => OpenLocal(v, m, peer, id)
    case EAnnounce(peer, id) => Announce(m, peer, id)
    case EOffer(from, to) => SlotOffer(cfg, m, from, to)
    case EClose(k) => CloseChannel(v, m, k)
  }

  function Run(v: Variant, cfg: Config, m: Manager, es: seq<Event>): Manager
    decreases |es|
  {
    if es == [] then m else Run(v, cfg, Step(v, cfg, m, es[0]), es[1..])
  }

  /** GenerateChannelId gives a local channel an id that no earlier local channel had. */
  predicate Fresh(m: Manager, e: Event) {
    e.EOpen? ==>
      forall k :: 0 <= k < |m.channels| && m.channels[k].role.Local? && m.channels[k].peer == e.peer ==>
        m.channels[k].id != e.id
  }

  predicate AllFresh(v: Variant, cfg: Config, m: Manager, es: seq<Event>)
    decreases |es|
  {
    es == [] || (Fresh(m, es[0]) && AllFresh(v, cfg, Step(v, cfg, m, es[0]), es[1..]))
  }

  // ---------------------------------------------------------------- the invariant

  predicate IsOpen(m: Manager, k: nat) {
    k < |m.channels| && m.channels[k].status.Open?
  }

  /** Channel k is registered: its peer is, with the connection k was opened on, and k is on the list for its role. */
  predicate Listed(m: Manager, k: nat)
    requires k < |m.channels|
  {
    var c := m.channels[k];
    c.peer in m.links && m.links[c.peer].pc == c.pc
    && match c.role
       case Local => c.id in m.links[c.peer].channel
       case Remote => c.id in m.links[c.peer].server && m.links[c.peer].server[c.id] == k
  }

  predicate PcsMatch(m: Manager) {
    forall p :: p in m.links ==> m.links[p].pc < |m.pcs| && m.pcs[m.links[p].pc].peer == p
  }

  predicate OpenListed(m: Manager) {
    forall k :: 0 <= k < |m.channels| && m.channels[k].status.Open? ==> Listed(m, k)
  }

  /** An entry of a server list is an open channel announced under that label. */
  predicate ServerOpen(m: Manager) {
    forall p, id :: p in m.links && id in m.links[p].server ==>
      var k := m.links[p].server[id];
      IsOpen(m, k) && m.channels[k].role.Remote? && m.channels[k].peer == p && m.channels[k].id == id
  }

  predicate LocalIdsDiffer(m: Manager) {
    forall j, k :: 0 <= j < k < |m.channels| && m.channels[j].role.Local? && m.channels[k].role.Local?
                   && m.channels[j].peer == m.channels[k].peer ==>
      m.channels[j].id != m.channels[k].id
  }

  predicate OpenLocalAt(m: Manager, k: nat, p: string, id: string) {
    IsOpen(m, k) && m.channels[k].role.Local? && m.channels[k].peer == p && m.channels[k].id == id
  }

  ghost predicate HasLocal(m: Manager, p: string, id: string) {
    exists k: nat :: OpenLocalAt(m, k, p, id)
  }

  /** The ids listed for a peer are those of its open local channels, each once, and the announced labels. */
  ghost predicate PeerListExact(m: Manager, p: string) {
    if p in m.links then
      forall id :: multiset(m.links[p].channel)[id] == Labels(m, p)[id] + if HasLocal(m, p, id) then 1 else 0
    else Labels(m, p) == multiset{}
  }

  ghost predicate ListExact(m: Manager) {
    forall p :: PeerListExact(m, p)
  }

  /** Only a connection made for an offer is registered without a channel. */
  predicate EmptyIsOffered(m: Manager) {
    forall p :: p in m.links && m.links[p].channel == [] && m.links[p].server == map[] && m.links[p].pc < |m.pcs| ==>
      !m.pcs[m.links[p].pc].forChannel
  }

  predicate SupersededLocal(m: Manager) {
    forall k :: 0 <= k < |m.channels| && m.channels[k].status.Superseded? ==> m.channels[k].role.Local?
  }

  ghost predicate Inv(m: Manager) {
    PcsMatch(m) && OpenListed(m) && ServerOpen(m) && LocalIdsDiffer(m) && ListExact(m) && EmptyIsOffered(m)
    && SupersededLocal(m)
  }
}
