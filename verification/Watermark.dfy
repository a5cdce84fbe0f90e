/** Watermark soundness under the clock hypothesis H.

    A table entry's `lastSyncTs` is documented as what the peer is confirmed to have.  That
    is not so for entries that reach a node late from a third one (see
    Stranded.dfy), but under H it is so for the node's own writes, whatever messages
    overlap, overtake each other or get lost. */
module Watermark {
  import opened Crdt
  import opened StoreSpec
  import opened Protocol
  import opened Cluster
  import opened Invariants
  import opened Guarantees

  /** Node `p` dominates every write of node `n` stamped at most `t`. */
  ghost predicate Covered(stores: Stores, written: set<Entry>, n: NodeId, t: nat, p: NodeId)
  {
    p in stores && forall e :: e in written && e.value.nodeId == n && e.value.timestamp <= t ==>
                     Dominates(stores[p], e)
  }

  /** As `Covered`, once the delta has been merged. */
  ghost predicate CoveredBy(stores: Stores, written: set<Entry>, n: NodeId, t: nat, p: NodeId, d: Entries)
  {
    p in stores && forall e :: e in written && e.value.nodeId == n && e.value.timestamp <= t ==>
                     Dominates(d, e) || Dominates(stores[p], e)
  }

  ghost predicate TablesSound(c: Config, stores: Stores, tables: Tables, written: set<Entry>)
    requires ValidConfig(c)
  {
    forall n, k :: n in tables && k in tables[n] && AddrOf(c, k) in c.route ==>
      Covered(stores, written, n, tables[n][k].lastSyncTs, c.route[AddrOf(c, k)])
  }

  ghost predicate TaskSound(c: Config, stores: Stores, written: set<Entry>, t: Task)
  {
    match t
    case Writing(_, _) => true
    case Targeted(n, _, snap) =>
      snap.addr in c.route ==> Covered(stores, written, n, snap.lastSyncTs, c.route[snap.addr])
    case Sent(x) =>
      x.toAddr in c.route ==> CoveredBy(stores, written, x.sender, x.maxSent, c.route[x.toAddr], x.delta)
    case Merged(x) =>
      x.toAddr in c.route ==> Covered(stores, written, x.sender, x.maxSent, c.route[x.toAddr])
    case Acking(x) =>
      x.toAddr in c.route ==> Covered(stores, written, x.sender, x.maxSent, c.route[x.toAddr])
  }

  ghost predicate TasksSound(c: Config, stores: Stores, written: set<Entry>, tasks: map<nat, Task>)
  {
    forall id :: id in tasks ==> TaskSound(c, stores, written, tasks[id])
  }

  ghost predicate Sound(c: Config, s: State)
    requires ValidConfig(c)
  {
    TablesSound(c, s.stores, s.tables, s.written) && TasksSound(c, s.stores, s.written, s.tasks)
  }

  // --- Coverage is kept ---------------------------------------------------------------

  lemma CoveredGrows(stores: Stores, stores': Stores, written: set<Entry>,
                     n: NodeId, t: nat, p: NodeId)
    requires Covered(stores, written, n, t, p) && StoresGrow(stores, stores')
    ensures Covered(stores', written, n, t, p)
  {
    forall e | e in written && e.value.nodeId == n && e.value.timestamp <= t
      ensures Dominates(stores'[p], e)
    {
      DominatesGrows(stores[p], stores'[p], e);
    }
  }

  lemma CoveredByGrows(stores: Stores, stores': Stores, written: set<Entry>, n: NodeId, t: nat, p: NodeId, d: Entries)
    requires CoveredBy(stores, written, n, t, p, d) && StoresGrow(stores, stores')
    ensures CoveredBy(stores', written, n, t, p, d)
  {
    forall e | e in written && e.value.nodeId == n && e.value.timestamp <= t && !Dominates(d, e)
      ensures Dominates(stores'[p], e)
    {
      DominatesGrows(stores[p], stores'[p], e);
    }
  }

  lemma TaskSoundGrows(c: Config, stores: Stores, stores': Stores, written: set<Entry>, t: Task)
    requires TaskSound(c, stores, written, t) && StoresGrow(stores, stores')
    ensures TaskSound(c, stores', written, t)
  {
    match t {
      case Writing(_, _) =>
      case Targeted(n, _, snap) =>
        if snap.addr in c.route {
          CoveredGrows(stores, stores', written, n, snap.lastSyncTs, c.route[snap.addr]);
        }
      case Sent(x) =>
        if x.toAddr in c.route {
          CoveredByGrows(stores, stores', written, x.sender, x.maxSent, c.route[x.toAddr], x.delta);
        }
      case Merged(x) =>
        if x.toAddr in c.route {
          CoveredGrows(stores, stores', written, x.sender, x.maxSent, c.route[x.toAddr]);
        }
      case Acking(x) =>
        if x.toAddr in c.route {
          CoveredGrows(stores, stores', written, x.sender, x.maxSent, c.route[x.toAddr]);
        }
    }
  }

  lemma TasksSoundGrows(c: Config, stores: Stores, stores': Stores, written: set<Entry>, tasks: map<nat, Task>)
    requires TasksSound(c, stores, written, tasks) && StoresGrow(stores, stores')
    ensures TasksSound(c, stores', written, tasks)
  {
    forall id | id in tasks
      ensures TaskSound(c, stores', written, tasks[id])
    {
      TaskSoundGrows(c, stores, stores', written, tasks[id]);
    }
  }

  lemma TablesSoundGrows(c: Config, stores: Stores, stores': Stores, tables: Tables, written: set<Entry>)
    requires ValidConfig(c) && TablesSound(c, stores, tables, written) && StoresGrow(stores, stores')
    ensures TablesSound(c, stores', tables, written)
  {
    forall n, k | n in tables && k in tables[n] && AddrOf(c, k) in c.route
      ensures Covered(stores', written, n, tables[n][k].lastSyncTs, c.route[AddrOf(c, k)])
    {
      CoveredGrows(stores, stores', written, n, tables[n][k].lastSyncTs, c.route[AddrOf(c, k)]);
    }
  }

  /** Under H a new write is stamped above every watermark and every message of its node, as
      these are bounded by the store; so it adds nothing that must be covered. */
  lemma NewWriteIsAboveTask(c: Config, s: State, t: Task, e: Entry)
    requires ValidConfig(c) && TaskInv(c, s, t) && TaskSound(c, s.stores, s.written, t)
    requires e.value.nodeId in s.stores
    requires MaxTimestamp(s.stores[e.value.nodeId]) < e.value.timestamp
    ensures TaskSound(c, s.stores, s.written + {e}, t)
  {
  }

  lemma NewWriteIsAboveTables(c: Config, s: State, e: Entry)
    requires ValidConfig(c) && Bounded(s.stores, s.tables)
    requires TablesSound(c, s.stores, s.tables, s.written)
    requires e.value.nodeId in s.stores
    requires MaxTimestamp(s.stores[e.value.nodeId]) < e.value.timestamp
    ensures TablesSound(c, s.stores, s.tables, s.written + {e})
  {
  }

  lemma NewWriteKeepsSound(c: Config, s: State, e: Entry)
    requires ValidConfig(c) && Inv(c, s) && Sound(c, s) && e.value.nodeId in s.stores
    requires MaxTimestamp(s.stores[e.value.nodeId]) < e.value.timestamp
    ensures TablesSound(c, s.stores, s.tables, s.written + {e})
    ensures TasksSound(c, s.stores, s.written + {e}, s.tasks)
  {
    NewWriteIsAboveTables(c, s, e);
    forall id | id in s.tasks
      ensures TaskSound(c, s.stores, s.written + {e}, s.tasks[id])
    {
      assert TaskInv(c, s, s.tasks[id]);
      NewWriteIsAboveTask(c, s, s.tasks[id], e);
    }
  }

  // --- One lemma per step -------------------------------------------------------------

  lemma ApplyKeepsSound(c: Config, s: State, id: nat)
    requires ValidConfig(c) && Inv(c, s) && Sound(c, s) && Has(c, s, id) && s.tasks[id].Writing?
    requires ClockOk(c, s, Apply(id))
    ensures Sound(c, DoApply(c, s, id))
  {
    var e := s.tasks[id].entry;
    var s' := DoApply(c, s, id);
    NewWriteKeepsSound(c, s, e);
    ApplyGrows(c, s, id);
    TablesSoundGrows(c, s.stores, s'.stores, s.tables, s'.written);
    TasksSoundGrows(c, s.stores, s'.stores, s'.written, s'.tasks);
  }

  /** A delta cut from a stale watermark still carries all the sender's writes up to its
      maximum, save those the receiver has. */
  lemma CutCovers(c: Config, s: State, n: NodeId, pk: string, snap: Peer, p: NodeId)
    requires ValidConfig(c) && n in s.stores && AuthorsHold(s.stores, s.written)
    requires Covered(s.stores, s.written, n, snap.lastSyncTs, p)
    ensures var x := Cut(s.stores[n], n, pk, snap);
            CoveredBy(s.stores, s.written, n, x.maxSent, p, x.delta)
  {
    var d := DeltaSince(s.stores[n], snap.lastSyncTs);
    forall e | e in s.written && e.value.nodeId == n
      ensures Dominates(d, e) || Dominates(s.stores[p], e)
    {
      assert Dominates(s.stores[n], e);
      if s.stores[n][e.key].timestamp <= snap.lastSyncTs {
        assert e.value.timestamp <= snap.lastSyncTs;
      }
    }
  }

  lemma BuildKeepsSound(c: Config, s: State, id: nat)
    requires ValidConfig(c) && WellFormed(c, s) && AuthorsHold(s.stores, s.written) && Sound(c, s)
    requires Has(c, s, id) && s.tasks[id].Targeted?
    ensures Sound(c, DoBuild(c, s, id))
  {
    var Targeted(n, pk, snap) := s.tasks[id];
    assert TaskSound(c, s.stores, s.written, s.tasks[id]);
    if snap.addr in c.route {
      CutCovers(c, s, n, pk, snap, c.route[snap.addr]);
    }
    var x := Cut(s.stores[n], n, pk, snap);
    if !Skips(snap, x.delta) {
      TasksSoundPut(c, s.stores, s.written, s.tasks, id, Sent(x));
    }
  }

  lemma TasksSoundPut(c: Config, stores: Stores, written: set<Entry>, tasks: map<nat, Task>, id: nat, t: Task)
    requires TasksSound(c, stores, written, tasks) && TaskSound(c, stores, written, t)
    ensures TasksSound(c, stores, written, tasks[id := t])
  {
  }

  lemma MergeCovers(stores: Stores, written: set<Entry>, n: NodeId, t: nat, p: NodeId, d: Entries)
    requires CoveredBy(stores, written, n, t, p, d)
    ensures Covered(stores[p := JoinMap(stores[p], d)], written, n, t, p)
  {
    var j := JoinMap(stores[p], d);
    JoinMapEffect(stores[p], d);
    forall e | e in written && e.value.nodeId == n && e.value.timestamp <= t
      ensures Dominates(j, e)
    {
      if Dominates(d, e) {
        assert Entry(e.key, d[e.key]) in ItemsOf(d);
        TagTransitive(e.value, d[e.key], j[e.key]);
      } else {
        DominatesGrows(stores[p], j, e);
      }
    }
  }

  lemma DeliverKeepsSound(c: Config, s: State, id: nat)
    requires ValidConfig(c) && WellFormed(c, s) && Sound(c, s) && Has(c, s, id)
    requires s.tasks[id].Sent? && s.tasks[id].x.toAddr in c.route
    ensures Sound(c, DoDeliver(c, s, id))
  {
    var x := s.tasks[id].x;
    var s' := DoDeliver(c, s, id);
    assert TaskSound(c, s.stores, s.written, s.tasks[id]);
    MergeCovers(s.stores, s.written, x.sender, x.maxSent, c.route[x.toAddr], x.delta);
    DeliverGrows(c, s, id);
    TablesSoundGrows(c, s.stores, s'.stores, s.tables, s.written);
    TasksSoundGrows(c, s.stores, s'.stores, s.written, s.tasks);
    TasksSoundPut(c, s'.stores, s.written, s.tasks, id, Merged(x));
  }

  lemma TableUpdateKeepsSound(c: Config, s: State, n: NodeId, key: string, q: Peer)
    requires ValidConfig(c) && TablesSound(c, s.stores, s.tables, s.written) && n in s.tables
    requires AddrOf(c, key) in c.route ==>
               Covered(s.stores, s.written, n, q.lastSyncTs, c.route[AddrOf(c, key)])
    ensures TablesSound(c, s.stores, s.tables[n := s.tables[n][key := q]], s.written)
  {
  }

  /** Writes stamped 0, which no delta ever carries, are dominated everywhere.  A new table
      entry starts with watermark 0, so its peer must have them. */
  ghost predicate ZeroStampsSpread(stores: Stores, written: set<Entry>)
  {
    forall n, e :: n in stores && e in written && e.value.timestamp == 0 ==> Dominates(stores[n], e)
  }

  lemma RegisterKeepsSound(c: Config, s: State, id: nat)
    requires ValidConfig(c) && WellFormed(c, s) && Sound(c, s) && ZeroStampsSpread(s.stores, s.written)
    requires Has(c, s, id) && s.tasks[id].Merged?
    ensures Sound(c, DoRegister(c, s, id))
  {
    var x := s.tasks[id].x;
    var p := c.route[x.toAddr];
    var q := Seen(Lookup(s.tables[p], x.sender, c.gossipAddr[x.sender]));
    assert TaskSound(c, s.stores, s.written, s.tasks[id]);
    TableUpdateKeepsSound(c, s, p, x.sender, q);
    TasksSoundPut(c, s.stores, s.written, s.tasks, id, Acking(x));
  }

  lemma AckKeepsSound(c: Config, s: State, id: nat)
    requires ValidConfig(c) && WellFormed(c, s) && Sound(c, s) && TasksInv(c, s)
    requires Has(c, s, id) && s.tasks[id].Acking?
    ensures Sound(c, DoAck(c, s, id))
  {
    var x := s.tasks[id].x;
    assert TaskInv(c, s, s.tasks[id]);
    assert TaskSound(c, s.stores, s.written, s.tasks[id]);
    TableUpdateKeepsSound(c, s, x.sender, x.peerKey, Exchanged(s.tables[x.sender][x.peerKey], x.maxSent));
  }

  lemma TargetIsCovered(c: Config, s: State, n: NodeId, k: string)
    requires ValidConfig(c) && TablesSound(c, s.stores, s.tables, s.written) && TableInv(c, s.stores, s.tables)
    requires n in s.tables && k in s.tables[n]
    ensures TaskSound(c, s.stores, s.written, Targeted(n, k, s.tables[n][k]))
  {
    assert Shaped(c, s.tables[n]);
    assert s.tables[n][k].addr == AddrOf(c, k);
  }

  lemma TaskMoveKeepsSound(c: Config, s: State, step: Step)
    requires ValidConfig(c) && Inv(c, s) && Sound(c, s)
    requires Enabled(c, s, step) && (step.Target? || step.Stamp? || step.Lose?)
    ensures Sound(c, Do(c, s, step))
  {
    if step.Target? {
      var t := Targeted(step.node, step.peerKey, s.tables[step.node][step.peerKey]);
      TargetIsCovered(c, s, step.node, step.peerKey);
      TasksSoundPut(c, s.stores, s.written, s.tasks, step.id, t);
    }
  }

  lemma MessageStepKeepsSound(c: Config, s: State, step: Step)
    requires ValidConfig(c) && Inv(c, s) && Sound(c, s) && ZeroStampsSpread(s.stores, s.written)
    requires Enabled(c, s, step) && (step.Deliver? || step.Register? || step.Ack?)
    ensures Sound(c, Do(c, s, step))
  {
    if step.Deliver? {
      DeliverKeepsSound(c, s, step.id);
    } else if step.Register? {
      RegisterKeepsSound(c, s, step.id);
    } else {
      AckKeepsSound(c, s, step.id);
    }
  }

  /** Every step keeps soundness, provided a write that gets the lock meets H. */
  lemma StepKeepsSound(c: Config, s: State, step: Step)
    requires ValidConfig(c) && Inv(c, s) && Sound(c, s) && ZeroStampsSpread(s.stores, s.written)
    requires Enabled(c, s, step) && ClockOk(c, s, step)
    ensures Sound(c, Do(c, s, step))
  {
    if step.Apply? {
      ApplyKeepsSound(c, s, step.id);
    } else if step.Build? {
      BuildKeepsSound(c, s, step.id);
    } else if step.Target? || step.Stamp? || step.Lose? {
      TaskMoveKeepsSound(c, s, step);
    } else {
      MessageStepKeepsSound(c, s, step);
    }
  }

  lemma ZeroStampsStaySpread(stores: Stores, stores': Stores, written: set<Entry>)
    requires ZeroStampsSpread(stores, written) && StoresGrow(stores, stores') && stores'.Keys == stores.Keys
    ensures ZeroStampsSpread(stores', written)
  {
    forall n, e | n in stores' && e in written && e.value.timestamp == 0
      ensures Dominates(stores'[n], e)
    {
      DominatesGrows(stores[n], stores'[n], e);
    }
  }

  lemma StepKeepsZeroStampsSpread(c: Config, s: State, step: Step)
    requires ValidConfig(c) && WellFormed(c, s) && ZeroStampsSpread(s.stores, s.written)
    requires Enabled(c, s, step) && ClockOk(c, s, step)
    ensures ZeroStampsSpread(Do(c, s, step).stores, Do(c, s, step).written)
  {
    StepGrows(c, s, step);
    ZeroStampsStaySpread(s.stores, Do(c, s, step).stores, s.written);
    WritesAfter(c, s, step);
  }

  lemma WritesAfter(c: Config, s: State, step: Step)
    requires ValidConfig(c) && WellFormed(c, s) && Enabled(c, s, step)
    ensures Do(c, s, step).written <= if step.Apply? then s.written + {s.tasks[step.id].entry} else s.written
  {
    if !step.Apply? {
      QuietStepFrame(c, s, step);
    }
  }

  /** Soundness holds along every run whose writes, if any, meet H. */
  lemma {:induction false} RunKeepsSound(c: Config, mode: Mode, run: seq<State>)
    requires ValidConfig(c) && Run(c, mode, run) && !mode.AnyClocks?
    requires Inv(c, run[0]) && Sound(c, run[0]) && ZeroStampsSpread(run[0].stores, run[0].written)
    ensures Inv(c, run[|run| - 1]) && Sound(c, run[|run| - 1])
    ensures ZeroStampsSpread(run[|run| - 1].stores, run[|run| - 1].written)
    decreases |run|
  {
    if |run| > 1 {
      RunPrefix(c, mode, run);
      var s, s' := run[|run| - 2], run[|run| - 1];
      RunKeepsSound(c, mode, run[..|run| - 1]);
      var step :| Legal(c, mode, s, step) && s' == Do(c, s, step);
      StepKeepsInv(c, s, step);
      StepKeepsSound(c, s, step);
      StepKeepsZeroStampsSpread(c, s, step);
    }
  }

  lemma ReachableSound(c: Config, s: State)
    requires ValidConfig(c) && Reachable(c, GoodClocks, s)
    ensures Inv(c, s) && Sound(c, s)
  {
    var run :| Run(c, GoodClocks, run) && run[0] == Init(c) && run[|run| - 1] == s;
    InitInv(c);
    RunKeepsSound(c, GoodClocks, run);
  }

  // --- The guarantee ------------------------------------------------------------------

  /** Author-to-peer watermark soundness: under H, once an entry's watermark has reached the
      stamp of a write of its own node, the peer the entry reaches dominates that write. */
  lemma AuthorToPeerSoundness(c: Config, s: State, n: NodeId, key: string, e: Entry)
    requires ValidConfig(c) && Reachable(c, GoodClocks, s)
    requires n in s.tables && key in s.tables[n] && s.tables[n][key].addr in c.route
    requires e in s.written && e.value.nodeId == n
    requires e.value.timestamp <= s.tables[n][key].lastSyncTs
    ensures c.route[s.tables[n][key].addr] in s.stores
    ensures Dominates(s.stores[c.route[s.tables[n][key].addr]], e)
  {
    ReachableSound(c, s);
    assert Shaped(c, s.tables[n]);
    assert s.tables[n][key].addr == AddrOf(c, key);
  }

  /** Under H no write is lost at its author: each takes effect when it gets the lock. */
  lemma GoodClocksAlwaysWin(c: Config, s: State, id: nat)
    requires ValidConfig(c) && Reachable(c, GoodClocks, s) && WellFormed(c, s)
    requires Legal(c, GoodClocks, s, Apply(id))
    ensures s.tasks[id].entry in Do(c, s, Apply(id)).written
    ensures s.tasks[id].entry.value.timestamp > 0
  {
    var Writing(n, e) := s.tasks[id];
    if e.key in s.stores[n] {
      assert s.stores[n][e.key].timestamp <= MaxTimestamp(s.stores[n]);
      MergeIsMaximum(s.stores[n][e.key], e.value);
    }
  }
}
