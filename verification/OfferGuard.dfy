/** The guard that CServerSocks::slotOffer and CIceManager::slotOffer share. */
module OfferGuard {
  datatype Config = Config(peerUser: string, signalUser: string)

  /** An offer is refused only when both users differ from the configured ones. */
  predicate Refused(cfg: Config, from: string, to: string) {
    cfg.peerUser != "" && cfg.peerUser != from && cfg.signalUser != to
  }

  /** The offers that are let in: from anybody if no peer is configured, from the configured peer, or to the
      configured signal user. */
  predicate Admitted(cfg: Config, from: string, to: string) {
    cfg.peerUser == "" || from == cfg.peerUser || to == cfg.signalUser
  }
}
