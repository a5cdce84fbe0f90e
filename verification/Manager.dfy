/** The gossip manager as the object it is: `src/gossip/manager.rs`.  Each method is one of the
    pieces of work that run without giving way to other tasks; the cluster's steps are the same
    pieces, and share the functions these methods are proved against.  Connections, timeouts,
    task spawning and cancellation are not modelled: a spawned send is returned as a value. */
module Manager {
  import opened Crdt
  import opened StoreSpec
  import opened Protocol
  import opened Peers
  import opened Store
  import opened Wrappers
  import Cluster
  import Codec
  import Frame

  datatype GossipConfig = GossipConfig(gossipAddr: Addr, seedPeers: seq<Addr>, gossipFanout: nat)

  /** A send that has been handed to a task of its own. */
  datatype Outgoing = Outgoing(peerKey: string, peerAddr: Addr, msg: GossipMessage, maxSentTs: nat)

  type Target = (string, Peer)

  /** The targets are table entries as they are now, each at most once. */
  ghost predicate ArePicked(targets: seq<Target>, table: Table)
  {
    && (forall i :: 0 <= i < |targets| ==> targets[i].0 in table && table[targets[i].0] == targets[i].1)
    && (forall i, j :: 0 <= i < j < |targets| ==> targets[i].0 != targets[j].0)
  }

  /** The send carries, in some order, the delta that the cluster's step cuts for the target. */
  ghost predicate Carries(o: Outgoing, t: Target, m: Entries, nodeId: NodeId, addr: Addr, gen: nat)
  {
    var x := Cluster.Cut(m, nodeId, t.0, t.1);
    && o.peerKey == x.peerKey && o.peerAddr == x.toAddr && o.maxSentTs == x.maxSent
    && o.msg.fromNodeId == x.sender && o.msg.fromGossipAddr == addr && o.msg.generation == gen
    && Enumerates(o.msg.deltas, x.delta)
  }

  /** One send per target that is not skipped, in target order. */
  ghost predicate AreSends(out: seq<Outgoing>, targets: seq<Target>, m: Entries, nodeId: NodeId, addr: Addr, gen: nat)
  {
    if |targets| == 0 then out == []
    else
      var init, t := targets[..|targets| - 1], targets[|targets| - 1];
      if Skips(t.1, DeltaSince(m, t.1.lastSyncTs)) then AreSends(out, init, m, nodeId, addr, gen)
      else |out| > 0 && Carries(out[|out| - 1], t, m, nodeId, addr, gen)
           && AreSends(out[..|out| - 1], init, m, nodeId, addr, gen)
  }

  /** What a send holds: the address and key of its target, the sender's id and address, every
      entry of the store stamped after the target's watermark once, and the largest of their
      timestamps, or 0. */
  ghost predicate IsMessageFor(o: Outgoing, t: Target, m: Entries, nodeId: NodeId, addr: Addr, gen: nat)
  {
    var d := o.msg.deltas;
    && o.peerKey == t.0 && o.peerAddr == t.1.addr
    && o.msg.fromNodeId == nodeId && o.msg.fromGossipAddr == addr && o.msg.generation == gen
    && (forall i :: 0 <= i < |d| ==>
          d[i].key in m && m[d[i].key] == d[i].value && t.1.lastSyncTs < d[i].value.timestamp <= o.maxSentTs)
    && (forall i, j :: 0 <= i < j < |d| ==> d[i].key != d[j].key)
    && (forall k :: k in m && m[k].timestamp > t.1.lastSyncTs ==> Entry(k, m[k]) in d)
    && (if |d| == 0 then o.maxSentTs == 0 else exists i :: 0 <= i < |d| && d[i].value.timestamp == o.maxSentTs)
  }

  lemma CarriedIsMessage(o: Outgoing, t: Target, m: Entries, nodeId: NodeId, addr: Addr, gen: nat)
    requires Carries(o, t, m, nodeId, addr, gen)
    ensures IsMessageFor(o, t, m, nodeId, addr, gen)
  {
    var d, delta := o.msg.deltas, DeltaSince(m, t.1.lastSyncTs);
    EnumerationEmptyIff(d, delta);
    assert forall k :: k in m && m[k].timestamp > t.1.lastSyncTs ==> k in delta;
    if |d| > 0 {
      var k :| k in delta && delta[k].timestamp == o.maxSentTs;
      assert Entry(k, delta[k]) in d;
    }
  }

  /** The target has been exchanged with, and there is nothing new for it. */
  ghost predicate HasNothingNew(t: Target, m: Entries)
  {
    t.1.exchangeCount > 0 && forall k :: k in m ==> m[k].timestamp <= t.1.lastSyncTs
  }

  /** The targets that are sent to, in order, are those at these positions, and the sends are
      theirs. */
  ghost predicate SentInOrder(out: seq<Outgoing>, targets: seq<Target>, m: Entries, nodeId: NodeId, addr: Addr,
                              gen: nat, ps: seq<nat>)
  {
    && |ps| == |out|
    && (forall i, j :: 0 <= i < j < |ps| ==> ps[i] < ps[j])
    && (forall q: nat :: q < |targets| ==> (q in ps <==> !HasNothingNew(targets[q], m)))
    && (forall i :: 0 <= i < |out| ==>
          ps[i] < |targets| && IsMessageFor(out[i], targets[ps[i]], m, nodeId, addr, gen))
  }

  ghost function SendPositions(targets: seq<Target>, m: Entries): seq<nat>
  {
    if |targets| == 0 then []
    else
      var before := SendPositions(targets[..|targets| - 1], m);
      if HasNothingNew(targets[|targets| - 1], m) then before else before + [|targets| - 1]
  }

  lemma {:induction false} SendPositionsAre(targets: seq<Target>, m: Entries)
    ensures forall i :: 0 <= i < |SendPositions(targets, m)| ==> SendPositions(targets, m)[i] < |targets|
    ensures forall q: nat :: q in SendPositions(targets, m) <==> q < |targets| && !HasNothingNew(targets[q], m)
    ensures forall i, j :: 0 <= i < j < |SendPositions(targets, m)| ==>
              SendPositions(targets, m)[i] < SendPositions(targets, m)[j]
  {
    if |targets| > 0 {
      SendPositionsAre(targets[..|targets| - 1], m);
    }
  }

  lemma {:induction false} SendsMatchPositions(out: seq<Outgoing>, targets: seq<Target>, m: Entries, nodeId: NodeId,
                                               addr: Addr, gen: nat)
    requires AreSends(out, targets, m, nodeId, addr, gen)
    ensures |SendPositions(targets, m)| == |out|
    decreases |targets|
  {
    if |targets| > 0 {
      var init, t := targets[..|targets| - 1], targets[|targets| - 1];
      SkipsIff(t.1, m);
      SendsMatchPositions(if HasNothingNew(t, m) then out else out[..|out| - 1], init, m, nodeId, addr, gen);
    }
  }

  lemma {:induction false} SendMatchesTarget(out: seq<Outgoing>, targets: seq<Target>, m: Entries, nodeId: NodeId,
                                             addr: Addr, gen: nat, i: nat)
    requires AreSends(out, targets, m, nodeId, addr, gen) && i < |out| == |SendPositions(targets, m)|
    ensures SendPositions(targets, m)[i] < |targets|
    ensures Carries(out[i], targets[SendPositions(targets, m)[i]], m, nodeId, addr, gen)
    decreases |targets|
  {
    var init, t := targets[..|targets| - 1], targets[|targets| - 1];
    SkipsIff(t.1, m);
    if HasNothingNew(t, m) {
      SendMatchesTarget(out, init, m, nodeId, addr, gen, i);
    } else if i < |out| - 1 {
      SendMatchesTarget(out[..|out| - 1], init, m, nodeId, addr, gen, i);
    }
  }

  /** The sends of a round: those targets, in order, that are new or have something new for them,
      each with its own message. */
  lemma SendsAreInOrder(out: seq<Outgoing>, targets: seq<Target>, m: Entries, nodeId: NodeId, addr: Addr, gen: nat)
    requires AreSends(out, targets, m, nodeId, addr, gen)
    ensures exists ps :: SentInOrder(out, targets, m, nodeId, addr, gen, ps)
  {
    var ps := SendPositions(targets, m);
    SendPositionsAre(targets, m);
    SendsMatchPositions(out, targets, m, nodeId, addr, gen);
    forall i | 0 <= i < |out|
      ensures IsMessageFor(out[i], targets[ps[i]], m, nodeId, addr, gen)
    {
      SendMatchesTarget(out, targets, m, nodeId, addr, gen, i);
      CarriedIsMessage(out[i], targets[ps[i]], m, nodeId, addr, gen);
    }
    assert SentInOrder(out, targets, m, nodeId, addr, gen, ps);
  }

  lemma EnumerationEmptyIff(d: StateDelta, m: Entries)
    requires Enumerates(d, m)
    ensures d == [] <==> m == map[]
  {
    if d != [] {
      assert d[0].key in m && m != map[];
    }
    if m != map[] {
      var k :| k in m;
      assert Entry(k, m[k]) in d;
    }
  }

  /** The largest timestamp of a delta, or 0. */
  method MaxSent(d: StateDelta, ghost m: Entries) returns (t: nat)
    requires Enumerates(d, m)
    ensures t == MaxTimestamp(m)
    ensures forall j :: 0 <= j < |d| ==> d[j].value.timestamp <= t
    ensures if |d| == 0 then t == 0 else exists j :: 0 <= j < |d| && d[j].value.timestamp == t
  {
    t := 0;
    for i := 0 to |d|
      invariant forall j :: 0 <= j < i ==> d[j].value.timestamp <= t
      invariant if i == 0 then t == 0 else exists j :: 0 <= j < i && d[j].value.timestamp == t
    {
      if i == 0 || d[i].value.timestamp > t {
        t := d[i].value.timestamp;
      }
    }
    EnumerationEmptyIff(d, m);
    forall k | k in m
      ensures m[k].timestamp <= t
    {
      assert Entry(k, m[k]) in d;
    }
    if |d| > 0 {
      var j :| 0 <= j < |d| && d[j].value.timestamp == t;
      assert d[j].key in m && m[d[j].key].timestamp == t;
    }
    MaxTimestampUnique(m, t);
  }

  /** One more seed: an entry for its address, unless it is empty or there is one already. */
  lemma SeedOneMore(seeds: seq<Addr>, addr: Addr, given: Table)
    ensures SeedTable(seeds + [addr]) + given ==
            var t := SeedTable(seeds) + given;
            if addr == "" then t else t[addr := Lookup(t, addr, addr)]
  {
  }

  ghost function ViewOf(peers: map<string, PeerInfo>): Table
    reads peers.Values
  {
    map k | k in peers :: peers[k].View()
  }

  /** Only the record under the key has changed since the table looked like this. */
  lemma OneViewChanged(before: Table, peers: map<string, PeerInfo>, key: string)
    requires key in peers && before.Keys == peers.Keys
    requires forall k :: k in peers && k != key ==> peers[k].View() == before[k]
    ensures ViewOf(peers) == before[key := peers[key].View()]
  {
  }

  class GossipManager {
    const config: GossipConfig
    const store: StateStore
    var peers: map<string, PeerInfo>
    var generation: nat

    /** No two entries share a record. */
    ghost predicate Valid()
      reads this
    {
      forall k, j :: k in peers && j in peers && k != j ==> peers[k] != peers[j]
    }

    /** The peer table as a value. */
    ghost function Contents(): Table
      reads this, peers.Values
    {
      ViewOf(peers)
    }

    /** A manager takes over the table that it is handed and pre-registers its non-empty seeds;
        an entry that is there already stays as it is. */
    constructor (config: GossipConfig, store: StateStore, peers: map<string, PeerInfo>)
      requires forall k, j :: k in peers && j in peers && k != j ==> peers[k] != peers[j]
      ensures Valid() && this.config == config && this.store == store && generation == 0
      ensures Contents() == SeedTable(config.seedPeers) + old(ViewOf(peers))
      ensures forall k :: k in Contents() <==> k in peers || (k in config.seedPeers && k != "")
      ensures forall k :: k in Contents() ==>
                Contents()[k] == if k in peers then old(peers[k].View()) else Peer(k, 0, 0)
    {
      this.config := config;
      this.store := store;
      this.peers := peers;
      generation := 0;
      new;
      PreRegister();
    }

    method PreRegister()
      requires Valid()
      modifies this`peers
      ensures Valid() && Contents() == SeedTable(config.seedPeers) + old(Contents())
    {
      ghost var given := Contents();
      assert SeedTable([]) + given == given;
      for i := 0 to |config.seedPeers|
        invariant Valid() && Contents() == SeedTable(config.seedPeers[..i]) + given
      {
        var addr := config.seedPeers[i];
        SeedOneMore(config.seedPeers[..i], addr, given);
        assert config.seedPeers[..i + 1] == config.seedPeers[..i] + [addr];
        if addr != "" {
          EntryOrInsert(addr, addr);
        }
      }
      assert config.seedPeers[..|config.seedPeers|] == config.seedPeers;
    }

    /** Make sure the table has an entry under the key. */
    method EntryOrInsert(key: string, addr: Addr)
      requires Valid()
      modifies this`peers
      ensures Valid() && key in peers
      ensures Contents() == old(Contents())[key := Lookup(old(Contents()), key, addr)]
      ensures forall k :: k in peers ==> (k in old(peers) && peers[k] == old(peers)[k]) || fresh(peers[k])
    {
      if key !in peers {
        var p := new PeerInfo(addr);
        peers := peers[key := p];
      }
    }

    /** Step 1 of a round: copy the table out in random order and keep the first `fanout`. */
    method SelectTargets() returns (targets: seq<Target>)
      ensures ArePicked(targets, Contents())
      ensures |targets| == if config.gossipFanout < |Contents()| then config.gossipFanout else |Contents()|
    {
      var all: seq<Target> := [];
      var left := peers.Keys;
      while left != {}
        invariant left <= peers.Keys
        invariant ArePicked(all, Contents())
        invariant forall i :: 0 <= i < |all| ==> all[i].0 !in left
        invariant |all| + |left| == |peers.Keys|
        decreases left
      {
        var k :| k in left;
        all := all + [(k, peers[k].View())];
        left := left - {k};
      }
      assert Contents().Keys == peers.Keys;
      var fanout := if config.gossipFanout < |all| then config.gossipFanout else |all|;
      targets := all[..fanout];
    }

    /** Step 2, for one target: cut the delta and make the message, or skip. */
    method BuildSend(target: Target, gen: nat) returns (send: Option<Outgoing>)
      ensures send.None? <==> Skips(target.1, DeltaSince(store.state, target.1.lastSyncTs))
      ensures send.Some? ==> Carries(send.value, target, store.state, store.nodeId, config.gossipAddr, gen)
      ensures send.None? <==>
              && target.1.exchangeCount > 0
              && forall k :: k in store.state ==> store.state[k].timestamp <= target.1.lastSyncTs
      ensures send.Some? ==> IsMessageFor(send.value, target, store.state, store.nodeId, config.gossipAddr, gen)
    {
      SkipsIff(target.1, store.state);
      var (peerKey, peer) := target;
      var delta := store.DeltaSince(peer.lastSyncTs);
      EnumerationEmptyIff(delta, DeltaSince(store.state, peer.lastSyncTs));
      if delta == [] && peer.exchangeCount > 0 {
        return None;
      }
      var maxSentTs := MaxSent(delta, DeltaSince(store.state, peer.lastSyncTs));
      var msg := GossipMessage(store.nodeId, config.gossipAddr, delta, gen);
      send := Some(Outgoing(peerKey, peer.addr, msg, maxSentTs));
      CarriedIsMessage(send.value, target, store.state, store.nodeId, config.gossipAddr, gen);
    }

    /** A whole round with no other task in between.  SendsAreInOrder says what its sends are. */
    method GossipRound() returns (targets: seq<Target>, out: seq<Outgoing>)
      requires Valid()
      modifies this`generation
      ensures ArePicked(targets, Contents())
      ensures |targets| == if config.gossipFanout < |Contents()| then config.gossipFanout else |Contents()|
      ensures AreSends(out, targets, store.state, store.nodeId, config.gossipAddr, old(generation))
      ensures generation == if targets == [] then old(generation) else (old(generation) + 1) % 0x1_0000_0000_0000_0000
    {
      targets := SelectTargets();
      out := [];
      if targets == [] {
        return;
      }
      var gen := generation;
      generation := (generation + 1) % U64;
      for i := 0 to |targets|
        invariant generation == (old(generation) + 1) % U64
        invariant AreSends(out, targets[..i], store.state, store.nodeId, config.gossipAddr, gen)
      {
        var send := BuildSend(targets[i], gen);
        assert targets[..i + 1][..i] == targets[..i];
        if send.Some? {
          assert (out + [send.value])[..|out|] == out;
          out := out + [send.value];
        }
      }
      assert targets[..|targets|] == targets;
    }

    /** A send was acknowledged: record what was sent on the target's entry. */
    method HandleAck(send: Outgoing)
      requires Valid()
      modifies this`peers, peers.Values
      ensures Valid()
      ensures Contents() == TableAcked(old(Contents()), send.peerKey, send.peerAddr, send.maxSentTs)
      ensures Contents().Keys == old(Contents()).Keys + {send.peerKey}
      ensures forall k :: k in old(Contents()) && k != send.peerKey ==> Contents()[k] == old(Contents())[k]
      ensures send.peerKey !in old(Contents()) ==>
                Contents()[send.peerKey] == Peer(send.peerAddr, send.maxSentTs, 1)
      ensures send.peerKey in old(Contents()) ==>
                var p := old(Contents())[send.peerKey];
                Contents()[send.peerKey] ==
                Peer(p.addr, if p.lastSyncTs > send.maxSentTs then p.lastSyncTs else send.maxSentTs,
                     (p.exchangeCount + 1) % 0x1_0000_0000_0000_0000)
    {
      TableAckedLaw(Contents(), send.peerKey, send.peerAddr, send.maxSentTs);
      RecordOnEntry(send.peerKey, send.peerAddr, send.maxSentTs);
    }

    method RecordOnEntry(key: string, addr: Addr, maxSent: nat)
      requires Valid()
      modifies this`peers, peers.Values
      ensures Valid()
      ensures Contents() == TableAcked(old(Contents()), key, addr, maxSent)
    {
      EntryOrInsert(key, addr);
      RecordAt(key, maxSent);
    }

    method RecordAt(key: string, maxSent: nat)
      requires Valid() && key in peers
      modifies peers[key]
      ensures Valid()
      ensures Contents() == old(Contents())[key := Exchanged(old(Contents())[key], maxSent)]
    {
      var peer := peers[key];
      ghost var before := Contents();
      peer.RecordExchange(maxSent);
      OneViewChanged(before, peers, key);
    }

    method SeenAt(key: string)
      requires Valid() && key in peers
      modifies peers[key]
      ensures Valid()
      ensures Contents() == old(Contents())[key := Seen(old(Contents())[key])]
    {
      var peer := peers[key];
      ghost var before := Contents();
      peer.MarkSeen();
      OneViewChanged(before, peers, key);
    }

    /** A message from the node was merged. */
    method MarkPeerSeen(id: NodeId, addr: Addr)
      requires Valid()
      modifies this`peers, peers.Values
      ensures Valid()
      ensures Contents() == TableSeen(old(Contents()), id, addr)
    {
      EntryOrInsert(id, addr);
      SeenAt(id);
    }

    /** One inbound message: merge, register the sender, answer with the number of changes. */
    method HandleInbound(msg: GossipMessage) returns (ack: GossipAck)
      requires Valid()
      modifies this`peers, peers.Values, store
      ensures Valid()
      ensures store.state == MergeSeq(old(store.state), msg.deltas)
      ensures store.events == old(store.events) + EventsFor(store.state, UpdatedKeys(old(store.state), msg.deltas))
      ensures Contents() == TableSeen(old(Contents()), msg.fromNodeId, msg.fromGossipAddr)
      ensures Contents().Keys == old(Contents()).Keys + {msg.fromNodeId}
      ensures forall k :: k in old(Contents()) && k != msg.fromNodeId ==> Contents()[k] == old(Contents())[k]
      ensures msg.fromNodeId !in old(Contents()) ==> Contents()[msg.fromNodeId] == Peer(msg.fromGossipAddr, 0, 1)
      ensures msg.fromNodeId in old(Contents()) ==>
                var p := old(Contents())[msg.fromNodeId];
                Contents()[msg.fromNodeId] ==
                Peer(p.addr, p.lastSyncTs, (p.exchangeCount + 1) % 0x1_0000_0000_0000_0000)
      ensures ack == GossipAck(store.nodeId, |UpdatedKeys(old(store.state), msg.deltas)|)
    {
      TableSeenLaw(Contents(), msg.fromNodeId, msg.fromGossipAddr);
      var updated := store.MergeDelta(msg.deltas);
      MarkPeerSeen(msg.fromNodeId, msg.fromGossipAddr);
      ack := GossipAck(store.nodeId, |updated|);
    }
  }

  /** What the handler does with a message is what the cluster's delivery and registration do
      with the exchange it carries, whatever order the hash map listed the delta in; and the
      count it answers with is the number of keys that changed. */
  lemma InboundMatchesCluster(m: Entries, d: StateDelta, dm: Entries)
    requires Enumerates(d, dm)
    ensures MergeSeq(m, d) == JoinMap(m, dm)
    ensures |UpdatedKeys(m, d)| == |ChangedKeys(m, JoinMap(m, dm))|
  {
    EnumerationMergesAlike(m, d, dm);
    MergedCountIsChangedKeys(m, d);
  }

  /** Of a round's sends, the receiver can read exactly those that the cluster lets through for
      their size, whatever order the delta was listed in. */
  lemma SendReadIff(c: Cluster.Config, o: Outgoing, t: Target, m: Entries, nodeId: NodeId, gen: nat, tail: Codec.Bytes)
    requires nodeId in c.gossipAddr && Carries(o, t, m, nodeId, c.gossipAddr[nodeId], gen)
    requires Codec.GossipInRange(o.msg)
    ensures var stream := Frame.FrameOf(Codec.EncodeGossip(o.msg)) + tail;
            var r := Frame.Decoded(Codec.GossipFrom, Frame.ParseFrame(stream).0);
            && (r.Ok? <==> Cluster.Fits(c, nodeId, Cluster.Cut(m, nodeId, t.0, t.1).delta))
            && (r.Ok? ==> r.value == o.msg)
  {
    Codec.GossipReadIff(o.msg, Cluster.Cut(m, nodeId, t.0, t.1).delta, tail);
  }
}
