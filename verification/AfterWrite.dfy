/** What can become of the next write in a full mesh with nothing to send: stamped too low it is
    hidden, too big it cannot leave its author, and otherwise it spreads.  NextWrite.dfy puts this
    together. */
module AfterWrite {
  import opened Crdt
  import opened StoreSpec
  import opened Protocol
  import opened Cluster
  import opened Invariants
  import opened Watermark
  import opened Convergence
  import opened WholeRuns
  import opened Draining
  import opened Oversized
  import opened Stranded

  /** A full mesh with nothing to send; whatever is under way may be under way, targets with
      outdated snapshots included. */
  ghost predicate AtRest(c: Config, s: State)
    requires ValidConfig(c)
  {
    Inv(c, s) && FullMesh(c, s) && Drained(c, s)
  }

  // --- A write stamped too low ------------------------------------------------------------

  /** An entry with nothing to send and a positive store maximum has been acknowledged, so its
      peer has registered the node. */
  lemma SettledIsRegistered(c: Config, s: State, n: NodeId, k: string, p: NodeId)
    requires ValidConfig(c) && AckInv(c, s) && EmptyDelta(s, n, k) && Reaches(c, k, p)
    requires MaxTimestamp(s.stores[n]) > 0
    ensures p in s.tables && n in s.tables[p]
  {
    DeltaMaximumIsStoreMaximum(s.stores[n], s.tables[n][k].lastSyncTs);
    assert IsAckMaximum(s.acked, n, k, s.tables[n][k].lastSyncTs);
    var x :| x in s.acked && x.sender == n && x.peerKey == k;
    assert WasDelivered(c, s, x);
  }

  lemma SettledEntry(c: Config, s: State, n: NodeId, k: string, p: NodeId)
    requires ValidConfig(c) && WellFormed(c, s) && TableInv(c, s.stores, s.tables) && Drained(c, s)
    requires n in s.tables && k in s.tables[n] && Reaches(c, k, p)
    ensures EmptyDelta(s, n, k) && MaxTimestamp(s.stores[n]) <= s.tables[n][k].lastSyncTs
  {
    assert Shaped(c, s.tables[n]);
    assert EmptyDelta(s, n, k);
    DeltaMaximumIsStoreMaximum(s.stores[n], s.tables[n][k].lastSyncTs);
  }

  lemma MeshEntry(c: Config, s: State, n: NodeId, p: NodeId) returns (k: string)
    requires ValidConfig(c) && WellFormed(c, s) && FullMesh(c, s) && n in c.nodes && p in c.nodes && n != p
    ensures k in s.tables[n] && Reaches(c, k, p)
  {
    k :| k in s.tables[n] && Reaches(c, k, p);
  }

  /** A node with a positive store maximum is registered by everyone that it leads to. */
  lemma RestingIsKnown(c: Config, s: State, p: NodeId, k: string, m: NodeId)
    requires ValidConfig(c) && AtRest(c, s) && p in c.nodes && k in s.tables[p] && Reaches(c, k, m)
    requires MaxTimestamp(s.stores[p]) > 0
    ensures m in s.tables && p in s.tables[m]
  {
    SettledEntry(c, s, p, k, m);
    SettledIsRegistered(c, s, p, k, m);
  }

  lemma RestingIsPast(c: Config, s: State, p: NodeId, t: nat)
    requires ValidConfig(c) && AtRest(c, s) && p in c.nodes
    requires forall m :: m in c.nodes ==> t <= MaxTimestamp(s.stores[m])
    ensures PastFor(c, s.tables, p, t)
  {
    forall m, k | m in s.tables && m != p && k in s.tables[m] && Reaches(c, k, p)
      ensures s.tables[m][k].lastSyncTs >= t && (t == 0 || p in s.tables[m])
    {
      SettledEntry(c, s, m, k, p);
      if t > 0 {
        var back := MeshEntry(c, s, p, m);
        RestingIsKnown(c, s, p, back, m);
      }
    }
  }

  lemma RestingIsKnownByContacts(c: Config, s: State, p: NodeId, t: nat)
    requires ValidConfig(c) && AtRest(c, s) && p in c.nodes && t <= MaxTimestamp(s.stores[p])
    ensures KnownByContacts(c, s.tables, p, t)
  {
    forall k, m | p in s.tables && k in s.tables[p] && m != p && Reaches(c, k, m)
      ensures m in s.tables && (t == 0 || p in s.tables[m])
    {
      if t > 0 {
        RestingIsKnown(c, s, p, k, m);
      }
    }
  }

  /** The entry has a later tag than all writes of its key. */
  ghost predicate IsNew(written: set<Entry>, e: Entry)
  {
    forall a :: a in written && a.key == e.key ==> !TagLe(e.value, a.value)
  }

  lemma RestingTablesArePast(c: Config, s: State, ps: set<NodeId>, t: nat)
    requires ValidConfig(c) && AtRest(c, s) && ps <= c.nodes
    requires forall m :: m in c.nodes ==> t <= MaxTimestamp(s.stores[m])
    ensures TablesPast(c, s.tables, ps, t)
  {
    forall p | p in ps
      ensures PastFor(c, s.tables, p, t) && KnownByContacts(c, s.tables, p, t)
    {
      RestingIsPast(c, s, p, t);
      RestingIsKnownByContacts(c, s, p, t);
    }
  }

  /** What a waiting target must not be able to do: bring the write from the other nodes into
      `ps`. */
  ghost predicate NoTargetCarries(c: Config, stores: Stores, written: set<Entry>, ps: set<NodeId>, e: Entry,
                                  tasks: map<nat, Task>)
    requires ValidConfig(c)
  {
    forall id :: id in tasks && tasks[id].Targeted? ==> TaskPast(c, stores, written, ps, e, tasks[id])
  }

  lemma OldTasksArePast(c: Config, s: State, stores: Stores, written: set<Entry>, ps: set<NodeId>, e: Entry)
    requires ValidConfig(c) && TasksInv(c, s) && IsNew(s.written, e)
    requires NoTargetCarries(c, stores, written, ps, e, s.tasks)
    ensures TasksPast(c, stores, written, ps, e, s.tasks)
  {
    forall id | id in s.tasks
      ensures TaskPast(c, stores, written, ps, e, s.tasks[id])
    {
      assert TaskInv(c, s, s.tasks[id]);
      if s.tasks[id].Sent? {
        var d := s.tasks[id].x.delta;
        if e.key in d {
          assert Entry(e.key, d[e.key]) in ItemsOf(d);
        }
      }
    }
  }

  lemma NewIsLacking(stores: Stores, written: set<Entry>, p: NodeId, e: Entry)
    requires p in stores && Sourced(stores, written) && IsNew(written, e)
    ensures !Dominates(stores[p], e) && e !in written
  {
    TagTotal(e.value, e.value);
    if e.key in stores[p] {
      assert ItemsOf(stores[p]) <= written;
      assert Entry(e.key, stores[p][e.key]) in ItemsOf(stores[p]);
    }
  }

  lemma DominatedIsOld(m: Entries, written: set<Entry>, e: Entry)
    requires forall a :: a in written ==> Dominates(m, a)
    requires Improves(m, e)
    ensures IsNew(written, e)
  {
    MergeEntryEffect(m, e);
    forall a | a in written && a.key == e.key
      ensures !TagLe(e.value, a.value)
    {
      assert Dominates(m, a);
      TagOrder(e.value, a.value, m[e.key]);
    }
  }

  /** What a write leaves as it was. */
  lemma ApplyFrame(c: Config, s: State, id: nat)
    requires ValidConfig(c) && WellFormed(c, s) && Has(c, s, id) && s.tasks[id].Writing?
    ensures var n, e, s' := s.tasks[id].node, s.tasks[id].entry, DoApply(c, s, id);
            && s'.tables == s.tables && s'.tasks == s.tasks - {id} && s'.written <= s.written + {e}
            && forall m :: m in s.stores ==>
                 m in s'.stores && s'.stores[m] == if m == n then MergeEntry(s.stores[n], e) else s.stores[m]
  {
  }

  lemma MissingAfterWrite(stores: Stores, written: set<Entry>, stores': Stores, written': set<Entry>,
                          ps: set<NodeId>, e: Entry, t: nat)
    requires Sourced(stores, written) && IsNew(written, e) && e.value.timestamp <= t && written' <= written + {e}
    requires forall p :: p in ps ==> p in stores && p in stores' && stores'[p] == stores[p]
    ensures Missing(stores', written', ps, e, t)
  {
    forall p | p in ps
      ensures !Dominates(stores'[p], e)
    {
      NewIsLacking(stores, written, p, e);
    }
  }

  lemma LateEntryIsHidden(c: Config, s: State, s': State, id: nat, ps: set<NodeId>, e: Entry, t: nat)
    requires ValidConfig(c) && Sourced(s.stores, s.written) && TasksInv(c, s) && TablesPast(c, s.tables, ps, t)
    requires IsNew(s.written, e) && e.value.timestamp <= t
    requires s'.tables == s.tables && s'.tasks == s.tasks - {id} && s'.written <= s.written + {e}
    requires forall p :: p in ps ==> p in s.stores && p in s'.stores && s'.stores[p] == s.stores[p]
    requires NoTargetCarries(c, s'.stores, s'.written, ps, e, s.tasks)
    ensures Hidden(c, s', ps, e, t)
  {
    MissingAfterWrite(s.stores, s.written, s'.stores, s'.written, ps, e, t);
    OldTasksArePast(c, s, s'.stores, s'.written, ps, e);
    TasksPastDrop(c, s'.stores, s'.written, ps, e, s.tasks, id);
  }

  /** A write at or below a point that all entries are past is hidden from any other nodes that no
      waiting target can bring it to. */
  lemma LateWriteIsHidden(c: Config, s: State, id: nat, ps: set<NodeId>, t: nat)
    requires ValidConfig(c) && WellFormed(c, s) && Sourced(s.stores, s.written) && TasksInv(c, s)
    requires Has(c, s, id) && s.tasks[id].Writing? && ps <= c.nodes && s.tasks[id].node !in ps
    requires IsNew(s.written, s.tasks[id].entry) && s.tasks[id].entry.value.timestamp <= t
    requires TablesPast(c, s.tables, ps, t)
    requires NoTargetCarries(c, DoApply(c, s, id).stores, DoApply(c, s, id).written, ps, s.tasks[id].entry, s.tasks)
    ensures Hidden(c, DoApply(c, s, id), ps, s.tasks[id].entry, t)
  {
    ApplyFrame(c, s, id);
    LateEntryIsHidden(c, s, DoApply(c, s, id), id, ps, s.tasks[id].entry, t);
  }

  lemma TasksPastDrop(c: Config, stores: Stores, written: set<Entry>, ps: set<NodeId>, e: Entry,
                      tasks: map<nat, Task>, id: nat)
    requires ValidConfig(c) && TasksPast(c, stores, written, ps, e, tasks)
    ensures TasksPast(c, stores, written, ps, e, tasks - {id})
  {
  }

  // --- A write too big for a message --------------------------------------------------------

  lemma UnwrittenIsConfined(c: Config, s: State, e: Entry)
    requires ValidConfig(c) && Sourced(s.stores, s.written) && TasksInv(c, s) && e !in s.written
    ensures Confined(s.stores, s.tasks, e)
  {
    forall m | m in s.stores
      ensures e !in ItemsOf(s.stores[m])
    {
      assert ItemsOf(s.stores[m]) <= s.written;
    }
    forall j, x | j in s.tasks && s.tasks[j] == Sent(x)
      ensures e !in ItemsOf(x.delta)
    {
      assert TaskInv(c, s, s.tasks[j]);
    }
  }

  /** The entry has a later tag than all other writes of its key. */
  ghost predicate IsLatest(written: set<Entry>, e: Entry)
  {
    forall a :: a in written && a.key == e.key && TagLe(e.value, a.value) ==> a == e
  }

  lemma LatestIsHeld(m: Entries, written: set<Entry>, e: Entry)
    requires e in written && IsLatest(written, e)
    ensures IsJoin(m, written) ==> e in ItemsOf(m)
  {
    if e.key in m {
      assert Entry(e.key, m[e.key]) in ItemsOf(m);
    }
  }

  lemma ConfinedNeverConverges(c: Config, s: State, e: Entry, p: NodeId)
    requires ValidConfig(c) && !Fits(c, e.value.nodeId, map[e.key := e.value])
    requires WellFormed(c, s) && Confined(s.stores, s.tasks, e) && e in s.written && IsLatest(s.written, e)
    requires p in c.nodes && p != e.value.nodeId
    ensures !CanConverge(c, s)
  {
    forall s' | QuietlyReaches(c, s, s')
      ensures !Converged(c, s')
    {
      var run :| Run(c, NoWrites, run) && run[0] == s && run[|run| - 1] == s';
      RunKeepsConfined(c, NoWrites, run, e);
      RunWritten(c, run);
      if p in s'.stores {
        LatestIsHeld(s'.stores[p], s.written, e);
      }
    }
  }

  // --- A write that spreads -----------------------------------------------------------------

  /** What is dominated everywhere is covered, whatever the watermarks. */
  lemma CompleteIsSound(c: Config, s: State)
    requires ValidConfig(c) && WellFormed(c, s) && Complete(c, s)
    ensures Sound(c, s) && ZeroStampsSpread(s.stores, s.written)
  {
    forall n, t, p | p in s.stores
      ensures Covered(s.stores, s.written, n, t, p)
    {
    }
  }

  lemma QuietlyReachedSound(c: Config, s: State, s': State)
    requires ValidConfig(c) && Inv(c, s) && Sound(c, s) && ZeroStampsSpread(s.stores, s.written)
    requires QuietlyReaches(c, s, s')
    ensures Sound(c, s')
  {
    var run :| Run(c, NoWrites, run) && run[0] == s && run[|run| - 1] == s';
    RunKeepsSound(c, NoWrites, run);
  }

  /** Above the old maximum there is nothing but the write. */
  lemma DeltaIsTheWrite(m: Entries, e: Entry, t: nat)
    requires MaxTimestamp(m) <= t && MaxTimestamp(m) < e.value.timestamp
    ensures DeltaSince(MergeEntry(m, e), t) == if e.value.timestamp > t then map[e.key := e.value] else map[]
  {
    MergeEntryEffect(m, e);
    if e.key in m {
      MergeIsMaximum(m[e.key], e.value);
    }
  }

  lemma ExhaustedIsPastWrite(c: Config, s: State, n: NodeId, m: Entries, e: Entry, k: string)
    requires n in s.stores && n in s.tables && k in s.tables[n] && n in c.nodes
    requires !CanSend(c, s, n, k) && s.tables[n][k].addr in c.route && Fits(c, n, map[e.key := e.value])
    requires s.stores[n] == MergeEntry(m, e)
    requires MaxTimestamp(m) < e.value.timestamp && MaxTimestamp(m) <= s.tables[n][k].lastSyncTs
    ensures e.value.timestamp <= s.tables[n][k].lastSyncTs
  {
    var d: Entries := map[e.key := e.value];
    DeltaIsTheWrite(m, e, s.tables[n][k].lastSyncTs);
    assert e.key in d && d != map[];
  }

  /** When no exchange that gets through is left, the write is with every node that an entry past
      the old maximum leads to. */
  lemma ExhaustedHasSpread(c: Config, s: State, n: NodeId, m: Entries, e: Entry, k: string, p: NodeId)
    requires ValidConfig(c) && TableInv(c, s.stores, s.tables) && TablesSound(c, s.stores, s.tables, s.written)
    requires n in s.stores && n in s.tables && k in s.tables[n] && n in c.nodes
    requires !CanSend(c, s, n, k) && Reaches(c, k, p) && Fits(c, n, map[e.key := e.value])
    requires s.stores[n] == MergeEntry(m, e) && e in s.written && e.value.nodeId == n
    requires MaxTimestamp(m) < e.value.timestamp && MaxTimestamp(m) <= s.tables[n][k].lastSyncTs
    ensures p in s.stores && Dominates(s.stores[p], e)
  {
    assert Shaped(c, s.tables[n]);
    ExhaustedIsPastWrite(c, s, n, m, e, k);
    assert Covered(s.stores, s.written, n, s.tables[n][k].lastSyncTs, p);
  }

  /** The author's store stays what the write made it. */
  lemma AuthorStoreStays(m: Entries, written: set<Entry>, e: Entry, store: Entries)
    requires forall a :: a in written ==> Dominates(m, a)
    requires Grows(MergeEntry(m, e), store) && ItemsOf(store) <= written + {e}
    ensures store == MergeEntry(m, e)
  {
    MergeEntryEffect(m, e);
    forall a | a in written + {e}
      ensures Dominates(MergeEntry(m, e), a)
    {
      if a in written {
        DominatesGrows(m, MergeEntry(m, e), a);
      }
    }
    FinalStoreStays(MergeEntry(m, e), store, written + {e});
  }

  /** Entries of `n` that lead to all other nodes have watermarks of at least `t`. */
  ghost predicate AllPast(c: Config, tables: Tables, n: NodeId, t: nat)
    requires ValidConfig(c)
  {
    forall p :: p in c.nodes && p != n ==> HasPast(c, tables, n, p, t)
  }

  ghost predicate HasPast(c: Config, tables: Tables, n: NodeId, p: NodeId, t: nat)
    requires ValidConfig(c)
  {
    exists k :: n in tables && k in tables[n] && Reaches(c, k, p) && t <= tables[n][k].lastSyncTs
  }

  lemma RestingIsAllPast(c: Config, s: State, n: NodeId)
    requires ValidConfig(c) && AtRest(c, s) && n in c.nodes
    ensures AllPast(c, s.tables, n, MaxTimestamp(s.stores[n]))
  {
    forall p | p in c.nodes && p != n
      ensures HasPast(c, s.tables, n, p, MaxTimestamp(s.stores[n]))
    {
      var k := MeshEntry(c, s, n, p);
      SettledEntry(c, s, n, k, p);
    }
  }

  lemma AllPastStays(c: Config, tables: Tables, tables': Tables, n: NodeId, t: nat)
    requires ValidConfig(c) && AllPast(c, tables, n, t) && TablesGrow(tables, tables')
    ensures AllPast(c, tables', n, t)
  {
    forall p | p in c.nodes && p != n
      ensures HasPast(c, tables', n, p, t)
    {
      assert HasPast(c, tables, n, p, t);
      var k :| n in tables && k in tables[n] && Reaches(c, k, p) && t <= tables[n][k].lastSyncTs;
      assert TableGrows(tables[n], tables'[n]);
    }
  }

  /** Every node has the write in the end. */
  lemma AllHaveWrite(c: Config, s: State, n: NodeId, m: Entries, e: Entry)
    requires ValidConfig(c) && WellFormed(c, s) && TableInv(c, s.stores, s.tables) && Exhausted(c, s)
    requires TablesSound(c, s.stores, s.tables, s.written) && e in s.written && e.value.nodeId == n
    requires n in c.nodes && s.stores[n] == MergeEntry(m, e) && AllPast(c, s.tables, n, MaxTimestamp(m))
    requires MaxTimestamp(m) < e.value.timestamp && Fits(c, n, map[e.key := e.value])
    ensures forall p :: p in c.nodes ==> p in s.stores && Dominates(s.stores[p], e)
  {
    forall p | p in c.nodes
      ensures p in s.stores && Dominates(s.stores[p], e)
    {
      if p == n {
        MergeEntryEffect(m, e);
      } else {
        assert HasPast(c, s.tables, n, p, MaxTimestamp(m));
        var k :| k in s.tables[n] && Reaches(c, k, p) && MaxTimestamp(m) <= s.tables[n][k].lastSyncTs;
        assert !CanSend(c, s, n, k);
        ExhaustedHasSpread(c, s, n, m, e, k, p);
      }
    }
  }

  // --- The exact condition ------------------------------------------------------------------

  /** The write meets H. */
  ghost predicate MeetsH(s: State, n: NodeId, e: Entry)
  {
    n in s.stores && MaxTimestamp(s.stores[n]) < e.value.timestamp
  }

  lemma GoodWriteImproves(m: Entries, e: Entry)
    requires MaxTimestamp(m) < e.value.timestamp
    ensures Improves(m, e)
  {
    if e.key in m {
      MergeIsMaximum(m[e.key], e.value);
    }
  }

  lemma GoodWriteIsSound(c: Config, s: State, id: nat)
    requires ValidConfig(c) && Inv(c, s) && Complete(c, s) && Has(c, s, id) && s.tasks[id].Writing?
    requires MeetsH(s, s.tasks[id].node, s.tasks[id].entry)
    ensures Sound(c, DoApply(c, s, id))
    ensures ZeroStampsSpread(DoApply(c, s, id).stores, DoApply(c, s, id).written)
  {
    CompleteIsSound(c, s);
    ApplyKeepsSound(c, s, id);
    StepKeepsZeroStampsSpread(c, s, Apply(id));
  }

  /** What exchanges after a good write end in. */
  lemma EndFacts(c: Config, s: State, id: nat, end: State)
    requires ValidConfig(c) && Inv(c, s) && Complete(c, s) && Has(c, s, id) && s.tasks[id].Writing?
    requires MeetsH(s, s.tasks[id].node, s.tasks[id].entry) && QuietlyReaches(c, DoApply(c, s, id), end)
    ensures Inv(c, end) && Sound(c, end) && end.written == s.written + {s.tasks[id].entry}
    ensures StateGrows(s, end) && StateGrows(DoApply(c, s, id), end)
  {
    var mid := DoApply(c, s, id);
    ApplyKeepsInv(c, s, id);
    ApplyGrows(c, s, id);
    GoodWriteIsSound(c, s, id);
    GoodWriteImproves(s.stores[s.tasks[id].node], s.tasks[id].entry);
    QuietlyReachedFacts(c, mid, end);
    QuietlyReachedSound(c, mid, end);
    StateGrowsTransitive(s, mid, end);
  }

  lemma EndOfAuthor(c: Config, s: State, id: nat, end: State)
    requires ValidConfig(c) && WellFormed(c, s) && Complete(c, s) && Has(c, s, id) && s.tasks[id].Writing?
    requires StoresGrow(DoApply(c, s, id).stores, end.stores) && Sourced(end.stores, s.written + {s.tasks[id].entry})
    ensures var n := s.tasks[id].node;
            n in end.stores && end.stores[n] == MergeEntry(s.stores[n], s.tasks[id].entry)
  {
    var n := s.tasks[id].node;
    assert DoApply(c, s, id).stores[n] == MergeEntry(s.stores[n], s.tasks[id].entry);
    assert ItemsOf(end.stores[n]) <= s.written + {s.tasks[id].entry};
    AuthorStoreStays(s.stores[n], s.written, s.tasks[id].entry, end.stores[n]);
  }

  lemma EndIsComplete(c: Config, s: State, end: State, e: Entry)
    requires c.nodes <= s.stores.Keys && Complete(c, s) && StoresGrow(s.stores, end.stores)
    requires end.written == s.written + {e}
    requires forall p :: p in c.nodes ==> p in end.stores && Dominates(end.stores[p], e)
    ensures Complete(c, end)
  {
    forall p, a | p in c.nodes && a in end.written
      ensures p in end.stores && Dominates(end.stores[p], a)
    {
      if a in s.written {
        DominatesGrows(s.stores[p], end.stores[p], a);
      }
    }
  }

  lemma EndHasWrite(c: Config, s: State, end: State, n: NodeId, e: Entry)
    requires ValidConfig(c) && AtRest(c, s) && n in c.nodes && e.value.nodeId == n
    requires MeetsH(s, n, e) && Fits(c, n, map[e.key := e.value])
    requires Inv(c, end) && Sound(c, end) && Exhausted(c, end) && TablesGrow(s.tables, end.tables)
    requires e in end.written && end.stores[n] == MergeEntry(s.stores[n], e)
    ensures forall p :: p in c.nodes ==> p in end.stores && Dominates(end.stores[p], e)
  {
    RestingIsAllPast(c, s, n);
    AllPastStays(c, s.tables, end.tables, n, MaxTimestamp(s.stores[n]));
    AllHaveWrite(c, end, n, s.stores[n], e);
  }

  /** A write that meets H and fits into a message spreads: whichever exchanges follow, when none
      that gets through is left, the cluster has converged. */
  lemma GoodWriteSpreads(c: Config, s: State, id: nat, picks: seq<Pick>, end: State)
    requires ValidConfig(c) && AtRest(c, s) && Converged(c, s) && Has(c, s, id) && s.tasks[id].Writing?
    requires MeetsH(s, s.tasks[id].node, s.tasks[id].entry)
    requires Fits(c, s.tasks[id].node, map[s.tasks[id].entry.key := s.tasks[id].entry.value])
    requires ExchangesTo(c, DoApply(c, s, id), picks, end) && Exhausted(c, end)
    ensures Converged(c, end)
  {
    ExchangesAreQuiet(c, DoApply(c, s, id), picks, end);
    CompleteIsConverged(c, s);
    GoodWriteCompletes(c, s, id, end);
    CompleteIsConverged(c, end);
  }

  lemma GoodWriteCompletes(c: Config, s: State, id: nat, end: State)
    requires ValidConfig(c) && AtRest(c, s) && Complete(c, s) && Has(c, s, id) && s.tasks[id].Writing?
    requires MeetsH(s, s.tasks[id].node, s.tasks[id].entry)
    requires Fits(c, s.tasks[id].node, map[s.tasks[id].entry.key := s.tasks[id].entry.value])
    requires QuietlyReaches(c, DoApply(c, s, id), end) && Exhausted(c, end)
    ensures Inv(c, end) && Complete(c, end)
  {
    EndFacts(c, s, id, end);
    EndOfAuthor(c, s, id, end);
    EndHasWrite(c, s, end, s.tasks[id].node, s.tasks[id].entry);
    EndIsComplete(c, s, end, s.tasks[id].entry);
  }

  lemma GoodWriteCanConverge(c: Config, s: State, id: nat)
    requires ValidConfig(c) && AtRest(c, s) && Converged(c, s) && Has(c, s, id) && s.tasks[id].Writing?
    requires MeetsH(s, s.tasks[id].node, s.tasks[id].entry)
    requires Fits(c, s.tasks[id].node, map[s.tasks[id].entry.key := s.tasks[id].entry.value])
    ensures CanConverge(c, DoApply(c, s, id))
  {
    ApplyKeepsInv(c, s, id);
    var picks, end := DrainWithinMeasure(c, DoApply(c, s, id));
    GoodWriteSpreads(c, s, id, picks, end);
    ExchangesAreQuiet(c, DoApply(c, s, id), picks, end);
  }
}
