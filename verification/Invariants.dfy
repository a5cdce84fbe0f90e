/** What holds in every reachable state of the cluster with arbitrary clocks: stamps may
    repeat, jump ahead or go back.  No hypothesis on the topology either. */
module Invariants {
  import opened Crdt
  import opened StoreSpec
  import opened Protocol
  import opened Cluster

  // --- The invariant ------------------------------------------------------------------

  /** Every stored entry is a write that took effect at its author. */
  ghost predicate Sourced(stores: Stores, written: set<Entry>)
  {
    forall n :: n in stores ==> ItemsOf(stores[n]) <= written
  }

  /** The author's own store dominates everything it wrote. */
  ghost predicate AuthorsHold(stores: Stores, written: set<Entry>)
  {
    forall e :: e in written ==> e.value.nodeId in stores && Dominates(stores[e.value.nodeId], e)
  }

  /** The store is the per-key last-write-wins maximum of the set. */
  ghost predicate IsJoin(m: Entries, es: set<Entry>)
  {
    ItemsOf(m) <= es && forall e :: e in es ==> Dominates(m, e)
  }

  /** Each store is the maximum of the writes its node has learned. */
  ghost predicate StoresAreJoins(stores: Stores, learned: map<NodeId, set<Entry>>, written: set<Entry>)
  {
    forall n :: n in stores ==> n in learned && IsJoin(stores[n], learned[n]) && learned[n] <= written
  }

  ghost predicate StoreInv(stores: Stores, learned: map<NodeId, set<Entry>>, written: set<Entry>)
  {
    && Sourced(stores, written)
    && AuthorsHold(stores, written)
    && TagConsistent(written)
    && StoresAreJoins(stores, learned, written)
  }

  /** The address a table entry must carry: node ids map to that node's gossip address, and
      seed strings are addresses themselves. */
  ghost function AddrOf(c: Config, key: string): Addr
    requires ValidConfig(c)
  {
    if key in c.nodes then c.gossipAddr[key] else key
  }

  /** The keys a table can ever have: node ids and non-empty seeds. */
  ghost function KeysOf(c: Config): set<string>
    requires ValidConfig(c)
  {
    c.nodes + set n, a | n in c.nodes && a in c.seeds[n] && a != "" :: a
  }

  ghost predicate Shaped(c: Config, t: Table)
    requires ValidConfig(c)
  {
    forall k :: k in t ==> k in KeysOf(c) && t[k].addr == AddrOf(c, k)
  }

  /** Some entry of the table reaches node `n`. */
  ghost predicate Knows(c: Config, t: Table, n: NodeId)
    requires ValidConfig(c)
  {
    exists k :: k in t && Reaches(c, k, n)
  }

  ghost predicate Reaches(c: Config, key: string, n: NodeId)
    requires ValidConfig(c)
  {
    AddrOf(c, key) in c.route && c.route[AddrOf(c, key)] == n
  }

  /** Whoever this node has exchanged with can reach this node back. */
  ghost predicate KnownBack(c: Config, tables: Tables, n: NodeId, key: string)
    requires ValidConfig(c)
  {
    && AddrOf(c, key) in c.route
    && c.route[AddrOf(c, key)] in tables
    && Knows(c, tables[c.route[AddrOf(c, key)]], n)
  }

  ghost predicate TwoWay(c: Config, tables: Tables)
    requires ValidConfig(c)
  {
    forall n, k :: n in tables && k in tables[n] && tables[n][k].exchangeCount > 0 ==>
      KnownBack(c, tables, n, k)
  }

  /** No watermark is beyond the largest timestamp of its node's own store. */
  ghost predicate Bounded(stores: Stores, tables: Tables)
  {
    forall n, k :: n in tables && k in tables[n] ==>
      n in stores && tables[n][k].lastSyncTs <= MaxTimestamp(stores[n])
  }

  ghost predicate TableInv(c: Config, stores: Stores, tables: Tables)
    requires ValidConfig(c)
  {
    && (forall n :: n in tables ==> Shaped(c, tables[n]))
    && (OwnAddresses(c) ==> TwoWay(c, tables))
    && Bounded(stores, tables)
  }

  /** The receiver's store dominates the whole delta. */
  ghost predicate Held(c: Config, stores: Stores, x: Exchange)
  {
    && x.toAddr in c.route && c.route[x.toAddr] in stores
    && forall e :: e in ItemsOf(x.delta) ==> Dominates(stores[c.route[x.toAddr]], e)
  }

  ghost predicate OnEntry(tables: Tables, x: Exchange)
  {
    x.sender in tables && x.peerKey in tables[x.sender]
  }

  ghost predicate ExchangeInv(c: Config, s: State, x: Exchange)
    requires ValidConfig(c)
  {
    && OnEntry(s.tables, x) && x.sender in s.stores
    && x.toAddr == AddrOf(c, x.peerKey)
    && x.maxSent == MaxTimestamp(x.delta) <= MaxTimestamp(s.stores[x.sender])
    && ItemsOf(x.delta) <= s.written
  }

  ghost predicate TaskInv(c: Config, s: State, t: Task)
    requires ValidConfig(c)
  {
    && TaskOk(c, t)
    && match t
       case Writing(n, e) => true
       case Targeted(n, pk, snap) =>
         && n in s.tables && n in s.stores && pk in s.tables[n]
         && snap.addr == AddrOf(c, pk) && snap.lastSyncTs <= MaxTimestamp(s.stores[n])
         && snap.lastSyncTs <= s.tables[n][pk].lastSyncTs
       case Sent(x) => ExchangeInv(c, s, x)
       case Merged(x) => ExchangeInv(c, s, x) && Held(c, s.stores, x)
       case Acking(x) =>
         && ExchangeInv(c, s, x) && Held(c, s.stores, x)
         && c.route[x.toAddr] in s.tables && x.sender in s.tables[c.route[x.toAddr]]
  }

  ghost predicate TasksInv(c: Config, s: State)
    requires ValidConfig(c)
  {
    forall id :: id in s.tasks ==> TaskInv(c, s, s.tasks[id])
  }

  /** `t` is the largest timestamp acknowledged on the entry, or 0 when there is none. */
  ghost predicate IsAckMaximum(acked: set<Exchange>, n: NodeId, key: string, t: nat)
  {
    && (forall x :: x in acked && x.sender == n && x.peerKey == key ==> x.maxSent <= t)
    && (t == 0 || exists x :: x in acked && x.sender == n && x.peerKey == key && x.maxSent == t)
  }

  ghost predicate WatermarksExact(tables: Tables, acked: set<Exchange>)
  {
    forall n, k :: n in tables && k in tables[n] ==> IsAckMaximum(acked, n, k, tables[n][k].lastSyncTs)
  }

  /** Every acknowledged delta was merged by its receiver, which also registered the sender. */
  ghost predicate Delivered(c: Config, s: State, acked: set<Exchange>)
    requires ValidConfig(c)
  {
    forall x :: x in acked ==> WasDelivered(c, s, x)
  }

  ghost predicate WasDelivered(c: Config, s: State, x: Exchange)
    requires ValidConfig(c)
  {
    && OnEntry(s.tables, x) && x.toAddr == AddrOf(c, x.peerKey)
    && Held(c, s.stores, x)
    && c.route[x.toAddr] in s.tables && x.sender in s.tables[c.route[x.toAddr]]
    && x.maxSent == MaxTimestamp(x.delta) && ItemsOf(x.delta) <= s.written
  }

  ghost predicate AckInv(c: Config, s: State)
    requires ValidConfig(c)
  {
    WatermarksExact(s.tables, s.acked) && Delivered(c, s, s.acked)
  }

  ghost predicate Inv(c: Config, s: State)
    requires ValidConfig(c)
  {
    && WellFormed(c, s)
    && StoreInv(s.stores, s.learned, s.written)
    && TableInv(c, s.stores, s.tables)
    && TasksInv(c, s)
    && AckInv(c, s)
  }

  // --- Stores: sources, authors and tags ----------------------------------------------

  /** A write that beats its author's store carries a tag no earlier write of that key has:
      an equal tag would name the same author, whose store already dominates it. */
  lemma WinningTagIsFresh(stores: Stores, written: set<Entry>, n: NodeId, e: Entry)
    requires AuthorsHold(stores, written) && TagConsistent(written)
    requires n in stores && e.value.nodeId == n && Improves(stores[n], e)
    ensures TagConsistent(written + {e})
  {
    forall a | a in written && a.key == e.key
      ensures !SameTag(a.value, e.value)
    {
      if SameTag(a.value, e.value) {
        var held := stores[n][e.key];
        DominationIsStrictOrder(held, e.value, e.value);
        TagOrder(e.value, a.value, held);
      }
    }
  }

  lemma ItemsAfterMerge(m: Entries, e: Entry)
    ensures ItemsOf(MergeEntry(m, e)) <= ItemsOf(m) + (if Improves(m, e) then {e} else {})
  {
    MergeEntryEffect(m, e);
  }

  lemma JoinInsert(m: Entries, es: set<Entry>, e: Entry)
    requires IsJoin(m, es)
    ensures IsJoin(MergeEntry(m, e), if Improves(m, e) then es + {e} else es)
  {
    MergeEntryEffect(m, e);
    ItemsAfterMerge(m, e);
    forall a | a in es
      ensures Dominates(MergeEntry(m, e), a)
    {
      DominatesGrows(m, MergeEntry(m, e), a);
    }
  }

  lemma JoinUnion(m: Entries, es: set<Entry>, d: Entries)
    requires IsJoin(m, es)
    ensures IsJoin(JoinMap(m, d), es + ItemsOf(d))
  {
    JoinMapEffect(m, d);
    var j := JoinMap(m, d);
    forall a | a in es + ItemsOf(d)
      ensures Dominates(j, a)
    {
      if a in es {
        DominatesGrows(m, j, a);
      }
    }
    forall a | a in ItemsOf(j)
      ensures a in es + ItemsOf(d)
    {
      assert a == Entry(a.key, j[a.key]);
      if a.key in m && j[a.key] == m[a.key] {
        assert a in ItemsOf(m);
      }
    }
  }

  lemma AuthorsHoldGrows(stores: Stores, stores': Stores, written: set<Entry>)
    requires AuthorsHold(stores, written) && StoresGrow(stores, stores')
    ensures AuthorsHold(stores', written)
  {
    forall e | e in written
      ensures e.value.nodeId in stores' && Dominates(stores'[e.value.nodeId], e)
    {
      DominatesGrows(stores[e.value.nodeId], stores'[e.value.nodeId], e);
    }
  }

  lemma SourcedAfterSet(stores: Stores, written: set<Entry>, n: NodeId, e: Entry)
    requires Sourced(stores, written) && n in stores
    ensures Sourced(stores[n := MergeEntry(stores[n], e)],
                    if Improves(stores[n], e) then written + {e} else written)
  {
    ItemsAfterMerge(stores[n], e);
  }

  lemma AuthorsHoldAfterSet(stores: Stores, written: set<Entry>, n: NodeId, e: Entry)
    requires AuthorsHold(stores, written) && n in stores && e.value.nodeId == n
    ensures AuthorsHold(stores[n := MergeEntry(stores[n], e)], written + {e})
  {
    MergeEntryEffect(stores[n], e);
    OneStoreGrows(stores, n, MergeEntry(stores[n], e));
    AuthorsHoldGrows(stores, stores[n := MergeEntry(stores[n], e)], written);
  }

  lemma JoinsAfterUpdate(stores: Stores, learned: map<NodeId, set<Entry>>, written: set<Entry>,
                         n: NodeId, m: Entries, es: set<Entry>, written': set<Entry>)
    requires StoresAreJoins(stores, learned, written) && written <= written'
    requires IsJoin(m, es) && es <= written'
    ensures StoresAreJoins(stores[n := m], learned[n := es], written')
  {
  }

  lemma StoreInvAfterSet(stores: Stores, learned: map<NodeId, set<Entry>>, written: set<Entry>, n: NodeId, e: Entry)
    requires StoreInv(stores, learned, written) && n in stores && e.value.nodeId == n
    ensures var wins := Improves(stores[n], e);
            StoreInv(stores[n := MergeEntry(stores[n], e)],
                     learned[n := if wins then learned[n] + {e} else learned[n]],
                     if wins then written + {e} else written)
  {
    var m := MergeEntry(stores[n], e);
    SourcedAfterSet(stores, written, n, e);
    AuthorsHoldAfterSet(stores, written, n, e);
    JoinInsert(stores[n], learned[n], e);
    if Improves(stores[n], e) {
      WinningTagIsFresh(stores, written, n, e);
      JoinsAfterUpdate(stores, learned, written, n, m, learned[n] + {e}, written + {e});
    } else {
      JoinsAfterUpdate(stores, learned, written, n, m, learned[n], written);
    }
  }

  lemma StoreInvAfterMerge(stores: Stores, learned: map<NodeId, set<Entry>>, written: set<Entry>, p: NodeId, d: Entries)
    requires StoreInv(stores, learned, written) && p in stores && ItemsOf(d) <= written
    ensures StoreInv(stores[p := JoinMap(stores[p], d)], learned[p := learned[p] + ItemsOf(d)], written)
  {
    var m := JoinMap(stores[p], d);
    JoinMapEffect(stores[p], d);
    JoinUnion(stores[p], learned[p], d);
    OneStoreGrows(stores, p, m);
    AuthorsHoldGrows(stores, stores[p := m], written);
  }

  // --- Tables -------------------------------------------------------------------------

  lemma KnowsGrows(c: Config, t: Table, t': Table, n: NodeId)
    requires ValidConfig(c) && Knows(c, t, n) && TableGrows(t, t')
    ensures Knows(c, t', n)
  {
    var k :| k in t && Reaches(c, k, n);
    assert k in t';
  }

  lemma BoundedGrows(stores: Stores, stores': Stores, tables: Tables)
    requires Bounded(stores, tables) && StoresGrow(stores, stores')
    ensures Bounded(stores', tables)
  {
    forall n, k | n in tables && k in tables[n]
      ensures n in stores' && tables[n][k].lastSyncTs <= MaxTimestamp(stores'[n])
    {
      MaxTimestampGrows(stores[n], stores'[n]);
    }
  }

  /** Replacing the entry of one key by one with the right address keeps two-way discovery
      when that entry's peer knows the node. */
  lemma TwoWayUpdate(c: Config, tables: Tables, n: NodeId, key: string, p: Peer)
    requires ValidConfig(c) && TwoWay(c, tables) && n in tables
    requires TableGrows(tables[n], tables[n][key := p])
    requires KnownBack(c, tables, n, key)
    ensures TwoWay(c, tables[n := tables[n][key := p]])
  {
    var tables': Tables := tables[n := tables[n][key := p]];
    forall m, k | m in tables' && k in tables'[m] && tables'[m][k].exchangeCount > 0
      ensures KnownBack(c, tables', m, k)
    {
      assert KnownBack(c, tables, m, k);
      var q := c.route[AddrOf(c, k)];
      if q == n {
        KnowsGrows(c, tables[q], tables'[q], m);
      }
    }
  }

  lemma ShapedUpdate(c: Config, t: Table, key: string, p: Peer)
    requires ValidConfig(c) && Shaped(c, t) && key in KeysOf(c) && p.addr == AddrOf(c, key)
    ensures Shaped(c, t[key := p])
  {
  }

  lemma BoundedUpdate(stores: Stores, tables: Tables, n: NodeId, key: string, p: Peer)
    requires Bounded(stores, tables) && n in tables && n in stores && p.lastSyncTs <= MaxTimestamp(stores[n])
    ensures Bounded(stores, tables[n := tables[n][key := p]])
  {
  }

  lemma TableInvUpdate(c: Config, stores: Stores, tables: Tables, n: NodeId, key: string, p: Peer)
    requires ValidConfig(c) && TableInv(c, stores, tables) && n in tables && n in stores
    requires TableGrows(tables[n], tables[n][key := p])
    requires OwnAddresses(c) ==> KnownBack(c, tables, n, key)
    requires key in KeysOf(c) && p.addr == AddrOf(c, key) && p.lastSyncTs <= MaxTimestamp(stores[n])
    ensures TableInv(c, stores, tables[n := tables[n][key := p]])
  {
    ShapedUpdate(c, tables[n], key, p);
    BoundedUpdate(stores, tables, n, key, p);
    if OwnAddresses(c) {
      TwoWayUpdate(c, tables, n, key, p);
    }
  }

  // --- Tasks and acknowledgements -----------------------------------------------------

  lemma HeldGrows(c: Config, stores: Stores, stores': Stores, x: Exchange)
    requires Held(c, stores, x) && StoresGrow(stores, stores')
    ensures Held(c, stores', x)
  {
    var p := c.route[x.toAddr];
    forall e | e in ItemsOf(x.delta)
      ensures Dominates(stores'[p], e)
    {
      DominatesGrows(stores[p], stores'[p], e);
    }
  }

  lemma ExchangeInvGrows(c: Config, s: State, s': State, x: Exchange)
    requires ValidConfig(c) && ExchangeInv(c, s, x) && StateGrows(s, s')
    ensures ExchangeInv(c, s', x)
  {
    assert TableGrows(s.tables[x.sender], s'.tables[x.sender]);
    MaxTimestampGrows(s.stores[x.sender], s'.stores[x.sender]);
  }

  lemma TaskInvGrows(c: Config, s: State, s': State, t: Task)
    requires ValidConfig(c) && TaskInv(c, s, t) && StateGrows(s, s')
    ensures TaskInv(c, s', t)
  {
    match t {
      case Writing(n, e) =>
      case Targeted(n, pk, snap) =>
        assert TableGrows(s.tables[n], s'.tables[n]);
        MaxTimestampGrows(s.stores[n], s'.stores[n]);
      case Sent(x) =>
        ExchangeInvGrows(c, s, s', x);
      case Merged(x) =>
        ExchangeInvGrows(c, s, s', x);
        HeldGrows(c, s.stores, s'.stores, x);
      case Acking(x) =>
        ExchangeInvGrows(c, s, s', x);
        HeldGrows(c, s.stores, s'.stores, x);
        assert TableGrows(s.tables[c.route[x.toAddr]], s'.tables[c.route[x.toAddr]]);
    }
  }

  /** A step that puts one task keeps the others, so only that one needs a look. */
  lemma TasksInvPut(c: Config, s: State, s': State, id: nat, t: Task)
    requires ValidConfig(c) && TasksInv(c, s) && StateGrows(s, s')
    requires s'.tasks == s.tasks[id := t] && TaskInv(c, s', t)
    ensures TasksInv(c, s')
  {
    forall j | j in s'.tasks
      ensures TaskInv(c, s', s'.tasks[j])
    {
      if j != id {
        TaskInvGrows(c, s, s', s.tasks[j]);
      }
    }
  }

  lemma TasksInvDrop(c: Config, s: State, s': State, id: nat)
    requires ValidConfig(c) && TasksInv(c, s) && StateGrows(s, s')
    requires s'.tasks == s.tasks - {id}
    ensures TasksInv(c, s')
  {
    forall j | j in s'.tasks
      ensures TaskInv(c, s', s'.tasks[j])
    {
      TaskInvGrows(c, s, s', s.tasks[j]);
    }
  }

  lemma DeliveredGrows(c: Config, s: State, s': State, acked: set<Exchange>)
    requires ValidConfig(c) && Delivered(c, s, acked) && StateGrows(s, s')
    ensures Delivered(c, s', acked)
  {
    forall x | x in acked
      ensures WasDelivered(c, s', x)
    {
      assert WasDelivered(c, s, x);
      assert TableGrows(s.tables[x.sender], s'.tables[x.sender]);
      assert TableGrows(s.tables[c.route[x.toAddr]], s'.tables[c.route[x.toAddr]]);
      HeldGrows(c, s.stores, s'.stores, x);
    }
  }

  // --- One lemma per step -------------------------------------------------------------

  lemma ApplyKeepsInv(c: Config, s: State, id: nat)
    requires ValidConfig(c) && Inv(c, s) && Has(c, s, id) && s.tasks[id].Writing?
    ensures Inv(c, DoApply(c, s, id))
  {
    var s' := DoApply(c, s, id);
    ApplyGrows(c, s, id);
    StoreInvAfterSet(s.stores, s.learned, s.written, s.tasks[id].node, s.tasks[id].entry);
    BoundedGrows(s.stores, s'.stores, s.tables);
    TasksInvDrop(c, s, s', id);
    DeliveredGrows(c, s, s', s.acked);
  }

  lemma DeliverKeepsInv(c: Config, s: State, id: nat)
    requires ValidConfig(c) && Inv(c, s) && Has(c, s, id)
    requires s.tasks[id].Sent? && s.tasks[id].x.toAddr in c.route
    ensures Inv(c, DoDeliver(c, s, id))
  {
    var s' := DoDeliver(c, s, id);
    var x := s.tasks[id].x;
    assert TaskInv(c, s, s.tasks[id]);
    DeliverGrows(c, s, id);
    StoreInvAfterMerge(s.stores, s.learned, s.written, c.route[x.toAddr], x.delta);
    BoundedGrows(s.stores, s'.stores, s.tables);
    DeliverKeepsTasks(c, s, id);
    DeliveredGrows(c, s, s', s.acked);
  }

  lemma DeliverKeepsTasks(c: Config, s: State, id: nat)
    requires ValidConfig(c) && WellFormed(c, s) && TasksInv(c, s) && Has(c, s, id)
    requires s.tasks[id].Sent? && s.tasks[id].x.toAddr in c.route
    ensures TasksInv(c, DoDeliver(c, s, id))
  {
    var s' := DoDeliver(c, s, id);
    var x := s.tasks[id].x;
    assert TaskInv(c, s, s.tasks[id]);
    DeliverGrows(c, s, id);
    JoinMapEffect(s.stores[c.route[x.toAddr]], x.delta);
    ExchangeInvGrows(c, s, s', x);
    TasksInvPut(c, s, s', id, Merged(x));
  }

  lemma WatermarksAfterRegister(tables: Tables, acked: set<Exchange>, p: NodeId, key: string, q: Peer)
    requires WatermarksExact(tables, acked) && p in tables
    requires forall x :: x in acked ==> OnEntry(tables, x)
    requires q.lastSyncTs == (if key in tables[p] then tables[p][key].lastSyncTs else 0)
    ensures WatermarksExact(tables[p := tables[p][key := q]], acked)
  {
  }

  lemma WatermarksAfterAck(tables: Tables, acked: set<Exchange>, x: Exchange, q: Peer)
    requires WatermarksExact(tables, acked) && OnEntry(tables, x)
    requires q.lastSyncTs == Max(tables[x.sender][x.peerKey].lastSyncTs, x.maxSent)
    ensures WatermarksExact(tables[x.sender := tables[x.sender][x.peerKey := q]], acked + {x})
  {
    var tables': Tables := tables[x.sender := tables[x.sender][x.peerKey := q]];
    forall n, k | n in tables' && k in tables'[n]
      ensures IsAckMaximum(acked + {x}, n, k, tables'[n][k].lastSyncTs)
    {
      assert IsAckMaximum(acked, n, k, tables[n][k].lastSyncTs);
      if n == x.sender && k == x.peerKey {
        var prior := tables[n][k].lastSyncTs;
        if prior > 0 {
          var y :| y in acked && y.sender == n && y.peerKey == k && y.maxSent == prior;
          assert y in acked + {x};
        }
        assert x in acked + {x};
      } else if tables[n][k].lastSyncTs > 0 {
        var y :| y in acked && y.sender == n && y.peerKey == k && y.maxSent == tables[n][k].lastSyncTs;
        assert y in acked + {x};
      }
    }
  }

  lemma RegisterKeepsInv(c: Config, s: State, id: nat)
    requires ValidConfig(c) && Inv(c, s) && Has(c, s, id) && s.tasks[id].Merged?
    ensures Inv(c, DoRegister(c, s, id))
  {
    var s' := DoRegister(c, s, id);
    var x := s.tasks[id].x;
    var p := c.route[x.toAddr];
    assert TaskInv(c, s, s.tasks[id]);
    var q := Seen(Lookup(s.tables[p], x.sender, c.gossipAddr[x.sender]));
    RegisterGrows(c, s, id);
    TableSeenGrows(s.tables[p], x.sender, c.gossipAddr[x.sender]);
    assert Reaches(c, x.peerKey, p);
    assert Shaped(c, s.tables[p]) && x.sender in KeysOf(c);
    TableInvUpdate(c, s.stores, s.tables, p, x.sender, q);
    ExchangeInvGrows(c, s, s', x);
    TasksInvPut(c, s, s', id, Acking(x));
    WatermarksAfterRegister(s.tables, s.acked, p, x.sender, q);
    DeliveredGrows(c, s, s', s.acked);
  }

  lemma AckKeepsTables(c: Config, s: State, id: nat)
    requires ValidConfig(c) && WellFormed(c, s) && Has(c, s, id) && s.tasks[id].Acking?
    requires TableInv(c, s.stores, s.tables) && TaskInv(c, s, s.tasks[id])
    ensures TableInv(c, s.stores, DoAck(c, s, id).tables)
  {
    var x := s.tasks[id].x;
    var n := x.sender;
    TableAckedGrows(s.tables[n], x.peerKey, x.toAddr, x.maxSent);
    assert Shaped(c, s.tables[n]);
    assert OwnAddresses(c) ==> Reaches(c, n, n);
    assert OwnAddresses(c) ==> Knows(c, s.tables[c.route[x.toAddr]], n);
    TableInvUpdate(c, s.stores, s.tables, n, x.peerKey, Exchanged(s.tables[n][x.peerKey], x.maxSent));
  }

  lemma AckingIsDelivered(c: Config, s: State, x: Exchange)
    requires ValidConfig(c) && TaskInv(c, s, Acking(x))
    ensures WasDelivered(c, s, x)
  {
  }

  lemma AckKeepsAckInv(c: Config, s: State, id: nat)
    requires ValidConfig(c) && WellFormed(c, s) && Has(c, s, id) && s.tasks[id].Acking?
    requires AckInv(c, s) && TaskInv(c, s, s.tasks[id])
    ensures AckInv(c, DoAck(c, s, id))
  {
    var x := s.tasks[id].x;
    AckingIsDelivered(c, s, x);
    assert OnEntry(s.tables, x);
    WatermarksAfterAck(s.tables, s.acked, x, Exchanged(s.tables[x.sender][x.peerKey], x.maxSent));
    AckDelivered(c, s, id);
  }

  lemma AckDelivered(c: Config, s: State, id: nat)
    requires ValidConfig(c) && WellFormed(c, s) && Has(c, s, id) && s.tasks[id].Acking?
    requires Delivered(c, s, s.acked) && WasDelivered(c, s, s.tasks[id].x)
    ensures Delivered(c, DoAck(c, s, id), s.acked + {s.tasks[id].x})
  {
    AckGrows(c, s, id);
    DeliveredGrows(c, s, DoAck(c, s, id), s.acked + {s.tasks[id].x});
  }

  lemma AckKeepsInv(c: Config, s: State, id: nat)
    requires ValidConfig(c) && Inv(c, s) && Has(c, s, id) && s.tasks[id].Acking?
    ensures Inv(c, DoAck(c, s, id))
  {
    assert TaskInv(c, s, s.tasks[id]);
    AckGrows(c, s, id);
    AckKeepsTables(c, s, id);
    AckKeepsAckInv(c, s, id);
    TasksInvDrop(c, s, DoAck(c, s, id), id);
  }

  lemma PutKeepsTasks(c: Config, s: State, id: nat, t: Task)
    requires ValidConfig(c) && TasksInv(c, s) && TaskInv(c, s, t)
    ensures TasksInv(c, PutTask(s, id, t))
  {
    var s' := PutTask(s, id, t);
    SameStateGrows(s, s');
    TaskInvGrows(c, s, s', t);
    TasksInvPut(c, s, s', id, t);
  }

  lemma DropKeepsTasks(c: Config, s: State, id: nat)
    requires ValidConfig(c) && TasksInv(c, s)
    ensures TasksInv(c, DropTask(s, id))
  {
    SameStateGrows(s, DropTask(s, id));
    TasksInvDrop(c, s, DropTask(s, id), id);
  }

  lemma TargetIsSound(c: Config, s: State, n: NodeId, pk: string)
    requires ValidConfig(c) && WellFormed(c, s) && TableInv(c, s.stores, s.tables)
    requires n in c.nodes && pk in s.tables[n]
    ensures TaskInv(c, s, Targeted(n, pk, s.tables[n][pk]))
  {
    assert Shaped(c, s.tables[n]);
  }

  lemma BuildKeepsTasks(c: Config, s: State, id: nat)
    requires ValidConfig(c) && WellFormed(c, s) && TasksInv(c, s) && Sourced(s.stores, s.written)
    requires Has(c, s, id) && s.tasks[id].Targeted?
    ensures TasksInv(c, DoBuild(c, s, id))
  {
    var Targeted(n, pk, snap) := s.tasks[id];
    assert TaskInv(c, s, s.tasks[id]);
    CutIsSound(c, s, n, pk, snap);
    DropKeepsTasks(c, s, id);
    PutKeepsTasks(c, s, id, Sent(Cut(s.stores[n], n, pk, snap)));
  }

  lemma CutIsSound(c: Config, s: State, n: NodeId, pk: string, snap: Peer)
    requires ValidConfig(c) && TaskInv(c, s, Targeted(n, pk, snap)) && Sourced(s.stores, s.written)
    ensures ExchangeInv(c, s, Cut(s.stores[n], n, pk, snap))
  {
    DeltaMaximumIsStoreMaximum(s.stores[n], snap.lastSyncTs);
    assert ItemsOf(s.stores[n]) <= s.written;
    assert ItemsOf(DeltaSince(s.stores[n], snap.lastSyncTs)) <= ItemsOf(s.stores[n]);
  }

  lemma TargetOrStampKeepsTasks(c: Config, s: State, step: Step)
    requires ValidConfig(c) && WellFormed(c, s) && TasksInv(c, s) && TableInv(c, s.stores, s.tables)
    requires Enabled(c, s, step) && (step.Target? || step.Stamp?)
    ensures TasksInv(c, Do(c, s, step))
  {
    if step.Target? {
      TargetIsSound(c, s, step.node, step.peerKey);
      PutKeepsTasks(c, s, step.id, Targeted(step.node, step.peerKey, s.tables[step.node][step.peerKey]));
    } else {
      PutKeepsTasks(c, s, step.id, Writing(step.node, Entry(step.key, LwwValue(step.value, step.now, step.node))));
    }
  }

  lemma TaskMoveKeepsTasks(c: Config, s: State, step: Step)
    requires ValidConfig(c) && Inv(c, s) && Enabled(c, s, step) && MovesTaskOnly(step)
    ensures TasksInv(c, Do(c, s, step))
  {
    if step.Build? {
      BuildKeepsTasks(c, s, step.id);
    } else if step.Lose? {
      DropKeepsTasks(c, s, step.id);
    } else {
      TargetOrStampKeepsTasks(c, s, step);
    }
  }

  lemma TaskMoveKeepsInv(c: Config, s: State, step: Step)
    requires ValidConfig(c) && Inv(c, s) && Enabled(c, s, step) && MovesTaskOnly(step)
    ensures Inv(c, Do(c, s, step))
  {
    TaskMoveKeepsTasks(c, s, step);
    TaskMoveFrame(c, s, step);
    SameFieldsKeepInv(c, s, Do(c, s, step));
  }

  lemma SameFieldsKeepInv(c: Config, s: State, s': State)
    requires ValidConfig(c) && Inv(c, s) && TasksInv(c, s')
    requires s'.stores == s.stores && s'.tables == s.tables
    requires s'.written == s.written && s'.learned == s.learned && s'.acked == s.acked
    ensures Inv(c, s')
  {
  }

  lemma MessageStepKeepsInv(c: Config, s: State, step: Step)
    requires ValidConfig(c) && Inv(c, s) && Enabled(c, s, step) && (step.Deliver? || step.Register? || step.Ack?)
    ensures Inv(c, Do(c, s, step))
  {
    if step.Deliver? {
      DeliverKeepsInv(c, s, step.id);
    } else if step.Register? {
      RegisterKeepsInv(c, s, step.id);
    } else {
      AckKeepsInv(c, s, step.id);
    }
  }

  lemma StepKeepsInv(c: Config, s: State, step: Step)
    requires ValidConfig(c) && Inv(c, s) && Enabled(c, s, step)
    ensures Inv(c, Do(c, s, step))
  {
    if step.Apply? {
      ApplyKeepsInv(c, s, step.id);
    } else if MovesTaskOnly(step) {
      TaskMoveKeepsInv(c, s, step);
    } else {
      MessageStepKeepsInv(c, s, step);
    }
  }
}
