/** What each step of the cluster does, field by field and in plain terms, and that no task ever
    gets stuck: every one can be taken further, and every message and acknowledgement lost. */
module StepLaws {
  import opened Crdt
  import opened StoreSpec
  import opened Protocol
  import opened Cluster
  import Codec

  /** A write is stamped with the value it is given and its node's id and clock. */
  lemma StampLaw(c: Config, s: State, id: nat, n: NodeId, key: Key, value: string, now: nat)
    requires CompleteConfig(c) && WellFormed(c, s) && id !in s.tasks && n in c.nodes
    ensures Enabled(c, s, Stamp(id, n, key, value, now))
    ensures var s' := Do(c, s, Stamp(id, n, key, value, now));
            && s'.tasks == s.tasks[id := Writing(n, Entry(key, LwwValue(value, now, n)))]
            && s'.stores == s.stores && s'.tables == s.tables
  {
  }

  /** A write that gets the lock is merged into its own node's store, and into no other. */
  lemma ApplyLaw(c: Config, s: State, id: nat)
    requires CompleteConfig(c) && WellFormed(c, s) && Has(c, s, id) && s.tasks[id].Writing?
    ensures Enabled(c, s, Apply(id))
    ensures var Writing(n, e) := s.tasks[id];
            var s' := Do(c, s, Apply(id));
            && s'.stores.Keys == s.stores.Keys && s'.tables == s.tables && s'.tasks == s.tasks - {id}
            && (forall m :: m in s.stores && m != n ==> s'.stores[m] == s.stores[m])
            && s'.stores[n].Keys == s.stores[n].Keys + {e.key}
            && (forall k :: k in s.stores[n] && k != e.key ==> s'.stores[n][k] == s.stores[n][k])
            && s'.stores[n][e.key] == if e.key in s.stores[n] then Merge(s.stores[n][e.key], e.value) else e.value
  {
  }

  /** A target is picked with its table entry as it is now. */
  lemma TargetLaw(c: Config, s: State, id: nat, n: NodeId, k: string)
    requires CompleteConfig(c) && WellFormed(c, s) && id !in s.tasks && n in c.nodes && k in s.tables[n]
    ensures Enabled(c, s, Target(id, n, k))
    ensures var s' := Do(c, s, Target(id, n, k));
            && s'.tasks == s.tasks[id := Targeted(n, k, s.tables[n][k])]
            && s'.stores == s.stores && s'.tables == s.tables
  {
  }

  /** A target is dropped exactly when it has been exchanged with and nothing in the store is
      stamped after its watermark; otherwise a message to its address is sent with everything that
      is, and with the largest timestamp of that, or 0. */
  lemma BuildLaw(c: Config, s: State, id: nat)
    requires CompleteConfig(c) && WellFormed(c, s) && Has(c, s, id) && s.tasks[id].Targeted?
    ensures Enabled(c, s, Build(id))
    ensures var Targeted(n, k, snap) := s.tasks[id];
            var s' := Do(c, s, Build(id));
            && s'.stores == s.stores && s'.tables == s.tables
            && (forall j :: j in s.tasks && j != id ==> j in s'.tasks && s'.tasks[j] == s.tasks[j])
            && s'.tasks.Keys <= s.tasks.Keys
            && (id !in s'.tasks <==>
                snap.exchangeCount > 0 && forall j :: j in s.stores[n] ==> s.stores[n][j].timestamp <= snap.lastSyncTs)
            && (id in s'.tasks ==> s'.tasks[id].Sent? && IsCut(s'.tasks[id].x, s.stores[n], n, k, snap))
  {
    var Targeted(n, k, snap) := s.tasks[id];
    SkipsIff(snap, s.stores[n]);
    CutLaw(s.stores[n], n, k, snap);
  }

  ghost predicate IsCut(x: Exchange, m: Entries, n: NodeId, k: string, snap: Peer)
  {
    && x.sender == n && x.peerKey == k && x.toAddr == snap.addr
    && (forall j :: j in x.delta <==> j in m && m[j].timestamp > snap.lastSyncTs)
    && (forall j :: j in x.delta ==> x.delta[j] == m[j] && m[j].timestamp <= x.maxSent)
    && (if x.delta == map[] then x.maxSent == 0 else exists j :: j in x.delta && x.delta[j].timestamp == x.maxSent)
  }

  lemma CutLaw(m: Entries, n: NodeId, k: string, snap: Peer)
    ensures IsCut(Cut(m, n, k, snap), m, n, k, snap)
  {
  }

  /** A message can be delivered exactly when its address is answered and its payload is at most
      16 MiB long; and delivery merges it, key by key, into the store of the node that answers,
      and into no other. */
  lemma DeliverLaw(c: Config, s: State, id: nat)
    requires CompleteConfig(c) && WellFormed(c, s) && Has(c, s, id) && s.tasks[id].Sent?
    ensures var x := s.tasks[id].x;
            && (Enabled(c, s, Deliver(id)) <==>
                x.toAddr in c.route && Codec.MessageSize(x.sender, c.gossipAddr[x.sender], x.delta) <= 0x100_0000)
            && (Enabled(c, s, Deliver(id)) ==>
                var p := c.route[x.toAddr];
                var s' := Do(c, s, Deliver(id));
                && s'.stores.Keys == s.stores.Keys && s'.tables == s.tables && s'.tasks == s.tasks[id := Merged(x)]
                && (forall m :: m in s.stores && m != p ==> s'.stores[m] == s.stores[m])
                && IsJoined(s'.stores[p], s.stores[p], x.delta))
  {
  }

  ghost predicate IsJoined(m': Entries, m: Entries, d: Entries)
  {
    && m'.Keys == m.Keys + d.Keys
    && forall k :: k in m' ==>
         m'[k] == if k in m && k in d then Merge(m[k], d[k]) else if k in d then d[k] else m[k]
  }

  /** The receiver then registers the sender: its entry counts one more exchange and keeps its
      watermark, and is made first if it is missing; all other entries of all tables stay. */
  lemma RegisterLaw(c: Config, s: State, id: nat)
    requires CompleteConfig(c) && WellFormed(c, s) && Has(c, s, id) && s.tasks[id].Merged?
    ensures Enabled(c, s, Register(id))
    ensures var x := s.tasks[id].x;
            var p := c.route[x.toAddr];
            var s' := Do(c, s, Register(id));
            && s'.stores == s.stores && s'.tables.Keys == s.tables.Keys && s'.tasks == s.tasks[id := Acking(x)]
            && (forall m :: m in s.tables && m != p ==> s'.tables[m] == s.tables[m])
            && IsSeen(s'.tables[p], s.tables[p], x.sender, c.gossipAddr[x.sender])
  {
    var x := s.tasks[id].x;
    TableSeenLaw(s.tables[c.route[x.toAddr]], x.sender, c.gossipAddr[x.sender]);
  }

  ghost predicate IsSeen(t': Table, t: Table, id: string, addr: Addr)
  {
    && t'.Keys == t.Keys + {id}
    && (forall k :: k in t && k != id ==> t'[k] == t[k])
    && t'[id] == if id in t then Peer(t[id].addr, t[id].lastSyncTs, (t[id].exchangeCount + 1) % 0x1_0000_0000_0000_0000)
                 else Peer(addr, 0, 1)
  }

  /** The sender records the acknowledgement: the entry counts one more exchange and its watermark
      is raised to what was sent unless it is higher; all other entries of all tables stay. */
  lemma AckLaw(c: Config, s: State, id: nat)
    requires CompleteConfig(c) && WellFormed(c, s) && Has(c, s, id) && s.tasks[id].Acking?
    ensures Enabled(c, s, Ack(id))
    ensures var x := s.tasks[id].x;
            var s' := Do(c, s, Ack(id));
            && s'.stores == s.stores && s'.tables.Keys == s.tables.Keys && s'.tasks == s.tasks - {id}
            && (forall m :: m in s.tables && m != x.sender ==> s'.tables[m] == s.tables[m])
            && IsRecorded(s'.tables[x.sender], s.tables[x.sender], x.peerKey, x.toAddr, x.maxSent)
  {
    var x := s.tasks[id].x;
    TableAckedLaw(s.tables[x.sender], x.peerKey, x.toAddr, x.maxSent);
  }

  ghost predicate IsRecorded(t': Table, t: Table, key: string, addr: Addr, maxSent: nat)
  {
    && t'.Keys == t.Keys + {key}
    && (forall k :: k in t && k != key ==> t'[k] == t[k])
    && t'[key] == if key in t then
                    Peer(t[key].addr, if t[key].lastSyncTs > maxSent then t[key].lastSyncTs else maxSent,
                         (t[key].exchangeCount + 1) % 0x1_0000_0000_0000_0000)
                  else Peer(addr, maxSent, 1)
  }

  /** Every message and every acknowledgement under way can be lost, at any time and without any
      other effect; what has been merged and not yet registered cannot. */
  lemma LoseLaw(c: Config, s: State, id: nat)
    requires CompleteConfig(c) && WellFormed(c, s) && Has(c, s, id)
    ensures Enabled(c, s, Lose(id)) <==> s.tasks[id].Sent? || s.tasks[id].Acking?
    ensures Enabled(c, s, Lose(id)) ==>
              var s' := Do(c, s, Lose(id));
              s'.tasks == s.tasks - {id} && s'.stores == s.stores && s'.tables == s.tables
  {
  }

  /** A new cluster: empty stores, nothing under way, and tables that hold just the seeds. */
  lemma InitLaw(c: Config)
    requires CompleteConfig(c)
    ensures var s := Init(c);
            && s.stores.Keys == c.nodes && s.tables.Keys == c.nodes && s.tasks == map[]
            && forall n :: n in c.nodes ==>
                 && s.stores[n] == map[]
                 && (forall a :: a in s.tables[n] <==> a in c.seeds[n] && a != "")
                 && forall a :: a in s.tables[n] ==> s.tables[n][a] == Peer(a, 0, 0)
  {
  }
}
