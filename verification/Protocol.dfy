/** The values the gossip protocol passes around, and what its handlers do to a peer table,
    as functions: `src/gossip/peer.rs` and the table updates of `src/gossip/manager.rs`.
    The classes in Peers.dfy and Manager.dfy are proved against these functions, and the
    cluster uses them as its steps. */
module Protocol {
  import opened Crdt
  import opened StoreSpec

  type Addr = string

  /** 2^64: the exchange and generation counters are `u64` and wrap. */
  const U64: nat := 0x1_0000_0000_0000_0000

  datatype Peer = Peer(addr: Addr, lastSyncTs: nat, exchangeCount: nat)

  type Table = map<string, Peer>

  datatype GossipMessage = GossipMessage(
    fromNodeId: NodeId,
    fromGossipAddr: Addr,
    deltas: StateDelta,
    generation: nat)

  datatype GossipAck = GossipAck(fromNodeId: NodeId, mergedCount: nat)

  function Max(a: nat, b: nat): nat
  {
    if a >= b then a else b
  }

  function NewPeer(addr: Addr): Peer
  {
    Peer(addr, 0, 0)
  }

  function Exchanged(p: Peer, syncTs: nat): Peer
  {
    Peer(p.addr, Max(p.lastSyncTs, syncTs), (p.exchangeCount + 1) % U64)
  }

  function Seen(p: Peer): Peer
  {
    Peer(p.addr, p.lastSyncTs, (p.exchangeCount + 1) % U64)
  }

  /** The table of a new manager: one entry for each non-empty seed, keyed by its address. */
  function SeedTable(seeds: seq<Addr>): Table
  {
    map a | a in seeds && a != "" :: NewPeer(a)
  }

  /** The entry under `id`, or a new one for `addr`. */
  function Lookup(t: Table, id: string, addr: Addr): Peer
  {
    if id in t then t[id] else NewPeer(addr)
  }

  /** A message from node `id` at `addr` has been merged. */
  function TableSeen(t: Table, id: NodeId, addr: Addr): Table
  {
    t[id := Seen(Lookup(t, id, addr))]
  }

  /** A send on entry `key` to `addr` has been acknowledged. */
  function TableAcked(t: Table, key: string, addr: Addr, maxSent: nat): Table
  {
    t[key := Exchanged(Lookup(t, key, addr), maxSent)]
  }

  /** A known peer is not contacted when there is nothing new for it; a peer never
      exchanged with is contacted even then. */
  predicate Skips(p: Peer, delta: Entries)
  {
    delta == map[] && p.exchangeCount > 0
  }

  /** Who is skipped: a peer that has been exchanged with and for whom the store has nothing
      stamped after the watermark. */
  lemma SkipsIff(p: Peer, m: Entries)
    ensures Skips(p, DeltaSince(m, p.lastSyncTs)) <==>
            p.exchangeCount > 0 && forall k :: k in m ==> m[k].timestamp <= p.lastSyncTs
  {
    if p.exchangeCount > 0 && DeltaSince(m, p.lastSyncTs) == map[] {
      forall k | k in m
        ensures m[k].timestamp <= p.lastSyncTs
      {
        assert k !in DeltaSince(m, p.lastSyncTs);
      }
    }
  }

  /** What an acknowledgement does to a table: the entry counts one more exchange, and its
      watermark is raised to what was sent unless it is higher; an entry that is missing is made
      first; all others stay. */
  lemma TableAckedLaw(t: Table, key: string, addr: Addr, maxSent: nat)
    ensures var t' := TableAcked(t, key, addr, maxSent);
            && t'.Keys == t.Keys + {key}
            && (forall k :: k in t && k != key ==> t'[k] == t[k])
            && t'[key].addr == (if key in t then t[key].addr else addr)
            && t'[key].lastSyncTs == (if key in t && t[key].lastSyncTs > maxSent then t[key].lastSyncTs else maxSent)
            && t'[key].exchangeCount ==
               (if key in t then (t[key].exchangeCount + 1) % 0x1_0000_0000_0000_0000 else 1)
  {
  }

  /** What a message from a node does to a table: its entry counts one more exchange and keeps its
      watermark; an entry that is missing is made first, from the address in the message; all
      others stay. */
  lemma TableSeenLaw(t: Table, id: NodeId, addr: Addr)
    ensures var t' := TableSeen(t, id, addr);
            && t'.Keys == t.Keys + {id}
            && (forall k :: k in t && k != id ==> t'[k] == t[k])
            && t'[id].addr == (if id in t then t[id].addr else addr)
            && t'[id].lastSyncTs == (if id in t then t[id].lastSyncTs else 0)
            && t'[id].exchangeCount ==
               (if id in t then (t[id].exchangeCount + 1) % 0x1_0000_0000_0000_0000 else 1)
  {
  }

  /** The seeds of a new manager. */
  lemma SeedTableLaw(seeds: seq<Addr>)
    ensures forall a :: a in SeedTable(seeds) <==> a in seeds && a != ""
    ensures forall a :: a in SeedTable(seeds) ==>
              var p := SeedTable(seeds)[a];
              p.addr == a && p.lastSyncTs == 0 && p.exchangeCount == 0
  {
  }

  /** Entries keep their addresses, and watermarks never move back. */
  predicate TableGrows(t: Table, t': Table)
  {
    forall k :: k in t ==> k in t' && t'[k].addr == t[k].addr && t[k].lastSyncTs <= t'[k].lastSyncTs
  }

  /** Acknowledgements may be recorded in any order, and one recorded late never rolls the
      watermark back: it ends at the maximum of all of them. */
  lemma AcksCommute(p: Peer, t1: nat, t2: nat)
    ensures Exchanged(Exchanged(p, t1), t2) == Exchanged(Exchanged(p, t2), t1)
    ensures Exchanged(Exchanged(p, t1), t2).lastSyncTs == Max(p.lastSyncTs, Max(t1, t2))
    ensures Seen(Exchanged(p, t1)) == Exchanged(Seen(p), t1)
  {
  }

  lemma TableSeenGrows(t: Table, id: NodeId, addr: Addr)
    ensures TableGrows(t, TableSeen(t, id, addr))
  {
  }

  lemma TableAckedGrows(t: Table, key: string, addr: Addr, maxSent: nat)
    ensures TableGrows(t, TableAcked(t, key, addr, maxSent))
  {
  }
}
