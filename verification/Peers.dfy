/** What a node knows about one peer: `PeerInfo` of `src/gossip/peer.rs`, without the
    last-seen time, which no gossip decision reads. */
module Peers {
  import opened Protocol

  class PeerInfo {
    const gossipAddr: Addr
    var lastSyncTs: nat
    var exchangeCount: nat

    constructor (gossipAddr: Addr)
      ensures View() == NewPeer(gossipAddr)
      ensures this.gossipAddr == gossipAddr && lastSyncTs == 0 && exchangeCount == 0
    {
      this.gossipAddr := gossipAddr;
      lastSyncTs, exchangeCount := 0, 0;
    }

    function View(): Peer
      reads this
    {
      Peer(gossipAddr, lastSyncTs, exchangeCount)
    }

    /** A push to the peer was acknowledged. */
    method RecordExchange(syncTs: nat)
      modifies this
      ensures View() == Exchanged(old(View()), syncTs)
      ensures lastSyncTs == if old(lastSyncTs) < syncTs then syncTs else old(lastSyncTs)
      ensures exchangeCount == (old(exchangeCount) + 1) % 0x1_0000_0000_0000_0000
    {
      if syncTs > lastSyncTs {
        lastSyncTs := syncTs;
      }
      exchangeCount := (exchangeCount + 1) % U64;
    }

    /** The peer pushed to us. */
    method MarkSeen()
      modifies this
      ensures View() == Seen(old(View()))
      ensures lastSyncTs == old(lastSyncTs)
      ensures exchangeCount == (old(exchangeCount) + 1) % 0x1_0000_0000_0000_0000
    {
      exchangeCount := (exchangeCount + 1) % U64;
    }
  }
}
