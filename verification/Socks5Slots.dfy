/** The slots of CProxySocks5 under the events of a whole run. */
module Socks5Slots {
  import opened Readings
  import opened Socks5Session
  import Socks5Proxy
  import Safety = Socks5Safety

  /** What the slots rely on. */
  predicate Ready(s: Session) {
    (s.status.Forward? ==> !s.peer.NoPeer?) && (!s.peer.NoPeer? && !s.status.Forward? ==> s.buf != [])
    && (s.peer.Dialling? ==> s.buf != [])
  }

  lemma InvIsReady(cfg: Config, s: Session)
    requires Safety.Inv(Written, cfg, s) && Live(s)
    ensures Ready(s)
  {
  }

  method PeerReports(proxy: Socks5Proxy.CProxySocks5, e: Event)
    requires proxy.Valid() && proxy.inbox == [] && Live(proxy.State()) && Ready(proxy.State())
    requires (e.Connected? || e.Failed? || e.Disconnected? || e.PeerData?) && Enabled(proxy.State(), e)
    modifies proxy
    ensures proxy.Valid() && proxy.inbox == []
    ensures proxy.State() == Step(Written, proxy.cfg, old(proxy.State()), e)
  {
    match e {
      case Connected(a, p) => proxy.SlotPeerConnected(a, p);
      case Failed(err, a, p) => proxy.SlotPeerError(err, a, p);
      case Disconnected => proxy.SlotPeerDisconnected();
      case PeerData(d) => proxy.SlotPeerRead(d);
    }
  }

  /** One event. In every state of every run the slot it calls may be called, takes the step of the state machine and
      keeps the session's invariant. */
  method Handle(proxy: Socks5Proxy.CProxySocks5, e: Event)
    requires proxy.Valid() && proxy.inbox == [] && Safety.Inv(Written, proxy.cfg, proxy.State())
    modifies proxy
    ensures proxy.Valid() && proxy.inbox == [] && Safety.Inv(Written, proxy.cfg, proxy.State())
    ensures proxy.State() == Step(Written, proxy.cfg, old(proxy.State()), e)
  {
    Safety.StepInv(Written, proxy.cfg, proxy.State(), e);
    if !proxy.socket || !proxy.halt.Running? {
      return;
    }
    InvIsReady(proxy.cfg, proxy.State());
    if e.Data? {
      proxy.ReadyRead(e.chunk);
    } else if e.Hangup? {
      proxy.SlotClose();
    } else {
      var known := if e.Connected? then proxy.peer.Dialling? else if e.PeerData? then proxy.peer.Linked?
                   else !proxy.peer.NoPeer?;
      if known {
        PeerReports(proxy, e);
      }
    }
  }
}
