/** The documented reading of a watermark, that the peer is confirmed to have received
    everything up to it, and exactly which steps end it. */
module Confirmation {
  import opened Crdt
  import opened StoreSpec
  import opened Protocol
  import opened Cluster
  import opened Invariants
  import opened Guarantees
  import opened Watermark

  /** Entry `k` of node `n`'s table, whose address node `p` answers at. */
  ghost predicate Leads(c: Config, s: State, n: NodeId, k: string, p: NodeId)
    requires ValidConfig(c)
  {
    n in s.stores && n in s.tables && k in s.tables[n] && p in s.stores && Reaches(c, k, p)
  }

  /** Node `p` dominates everything in the store up to the watermark, whoever wrote it. */
  ghost predicate Confirmed(stores: Stores, n: NodeId, t: nat, p: NodeId)
    requires n in stores && p in stores
  {
    forall e :: e in ItemsOf(stores[n]) && e.value.timestamp <= t ==> Dominates(stores[p], e)
  }

  /** The documented reading of the entry. */
  ghost predicate Reading(c: Config, s: State, n: NodeId, k: string, p: NodeId)
    requires ValidConfig(c) && Leads(c, s, n, k, p)
  {
    Confirmed(s.stores, n, s.tables[n][k].lastSyncTs, p)
  }

  /** A write to the node's own store leaves the reading true when it loses to what is there,
      is stamped above the watermark, or is older than what the peer holds of the key. */
  ghost predicate ApplyKeeps(s: State, n: NodeId, k: string, p: NodeId, m: NodeId, e: Entry)
    requires n in s.stores && n in s.tables && k in s.tables[n] && p in s.stores
  {
    || m != n || p == n || Dominates(s.stores[n], e)
    || s.tables[n][k].lastSyncTs < e.value.timestamp || Dominates(s.stores[p], e)
  }

  /** So does a delta that brings the node nothing new at or below the watermark, save what the
      peer holds. */
  ghost predicate DeliverKeeps(s: State, n: NodeId, k: string, p: NodeId, q: NodeId, d: Entries)
    requires n in s.stores && n in s.tables && k in s.tables[n] && p in s.stores
  {
    || q != n || p == n
    || forall e :: e in ItemsOf(d) && e.value.timestamp <= s.tables[n][k].lastSyncTs ==>
         Dominates(s.stores[n], e) || Dominates(s.stores[p], e)
  }

  /** And an acknowledgement, when all that the watermark passes over without having been in the
      delta is held by the peer. */
  ghost predicate AckKeeps(s: State, n: NodeId, k: string, p: NodeId, x: Exchange)
    requires n in s.stores && n in s.tables && k in s.tables[n] && p in s.stores
  {
    || x.sender != n || x.peerKey != k
    || forall e :: e in ItemsOf(s.stores[n]) && e !in ItemsOf(x.delta) ==>
         (s.tables[n][k].lastSyncTs < e.value.timestamp <= x.maxSent ==> Dominates(s.stores[p], e))
  }

  ghost predicate StepKeepsReading(c: Config, s: State, step: Step, n: NodeId, k: string, p: NodeId)
    requires ValidConfig(c) && WellFormed(c, s) && Enabled(c, s, step) && Leads(c, s, n, k, p)
  {
    match step
    case Apply(id) => ApplyKeeps(s, n, k, p, s.tasks[id].node, s.tasks[id].entry)
    case Deliver(id) => DeliverKeeps(s, n, k, p, c.route[s.tasks[id].x.toAddr], s.tasks[id].x.delta)
    case Ack(id) => AckKeeps(s, n, k, p, s.tasks[id].x)
    case _ => true
  }

  lemma PeerGrowthKeeps(stores: Stores, n: NodeId, t: nat, p: NodeId, m: NodeId, store: Entries)
    requires n in stores && p in stores && m in stores && m != n && Confirmed(stores, n, t, p)
    requires Grows(stores[m], store)
    ensures Confirmed(stores[m := store], n, t, p)
  {
    forall e | e in ItemsOf(stores[n]) && e.value.timestamp <= t
      ensures Dominates(stores[m := store][p], e)
    {
      if m == p {
        DominatesGrows(stores[p], store, e);
      }
    }
  }

  lemma OwnEntryConfirmed(stores: Stores, n: NodeId, t: nat)
    requires n in stores
    ensures Confirmed(stores, n, t, n)
  {
    forall e | e in ItemsOf(stores[n])
      ensures Dominates(stores[n], e)
    {
      TagTotal(e.value, e.value);
    }
  }

  lemma AfterApplyIff(s: State, n: NodeId, k: string, p: NodeId, m: NodeId, e: Entry)
    requires n in s.stores && n in s.tables && k in s.tables[n] && p in s.stores && m in s.stores
    requires Confirmed(s.stores, n, s.tables[n][k].lastSyncTs, p)
    ensures Confirmed(s.stores[m := MergeEntry(s.stores[m], e)], n, s.tables[n][k].lastSyncTs, p) <==>
            ApplyKeeps(s, n, k, p, m, e)
  {
    var t, store := s.tables[n][k].lastSyncTs, MergeEntry(s.stores[m], e);
    MergeEntryEffect(s.stores[m], e);
    if m != n {
      PeerGrowthKeeps(s.stores, n, t, p, m, store);
    } else if p == n {
      OwnEntryConfirmed(s.stores[m := store], n, t);
    } else if Improves(s.stores[n], e) {
      assert e in ItemsOf(store);
      assert forall a :: a in ItemsOf(store) && a != e ==> a in ItemsOf(s.stores[n]);
    }
  }

  lemma AfterDeliverIff(s: State, n: NodeId, k: string, p: NodeId, q: NodeId, d: Entries)
    requires n in s.stores && n in s.tables && k in s.tables[n] && p in s.stores && q in s.stores
    requires Confirmed(s.stores, n, s.tables[n][k].lastSyncTs, p)
    ensures Confirmed(s.stores[q := JoinMap(s.stores[q], d)], n, s.tables[n][k].lastSyncTs, p) <==>
            DeliverKeeps(s, n, k, p, q, d)
  {
    var t, store := s.tables[n][k].lastSyncTs, JoinMap(s.stores[q], d);
    JoinMapEffect(s.stores[q], d);
    if q != n {
      PeerGrowthKeeps(s.stores, n, t, p, q, store);
    } else if p == n {
      OwnEntryConfirmed(s.stores[q := store], n, t);
    } else {
      NewItems(s.stores[n], d);
    }
  }

  /** What merging a map adds to the items of a store. */
  lemma NewItems(m: Entries, d: Entries)
    ensures forall e :: e in ItemsOf(d) && !Dominates(m, e) ==> e in ItemsOf(JoinMap(m, d))
    ensures forall e :: e in ItemsOf(JoinMap(m, d)) && e !in ItemsOf(m) ==> e in ItemsOf(d) && !Dominates(m, e)
  {
    forall e | e in ItemsOf(d) && e.key in m
      ensures Merge(m[e.key], e.value) == m[e.key] <==> TagLe(e.value, m[e.key])
      ensures Merge(m[e.key], e.value) == m[e.key] || Merge(m[e.key], e.value) == e.value
    {
      MergeIsMaximum(m[e.key], e.value);
    }
    forall e | e in ItemsOf(JoinMap(m, d)) && e !in ItemsOf(m)
      ensures e in ItemsOf(d) && !Dominates(m, e)
    {
      if e.key in d {
        assert Entry(e.key, d[e.key]) in ItemsOf(d);
      }
    }
  }

  lemma AfterAckIff(c: Config, s: State, n: NodeId, k: string, p: NodeId, x: Exchange)
    requires ValidConfig(c) && Leads(c, s, n, k, p) && Reading(c, s, n, k, p)
    requires TaskInv(c, s, Acking(x)) && x.sender == n && x.peerKey == k
    ensures Confirmed(s.stores, n, Max(s.tables[n][k].lastSyncTs, x.maxSent), p) <==> AckKeeps(s, n, k, p, x)
  {
    assert Held(c, s.stores, x) && c.route[x.toAddr] == p;
  }

  lemma LeadsStays(c: Config, s: State, s': State, n: NodeId, k: string, p: NodeId)
    requires ValidConfig(c) && Leads(c, s, n, k, p) && StoresGrow(s.stores, s'.stores)
    requires TablesGrow(s.tables, s'.tables)
    ensures Leads(c, s', n, k, p)
  {
    assert TableGrows(s.tables[n], s'.tables[n]);
  }

  lemma StepKeepsLeads(c: Config, s: State, step: Step, n: NodeId, k: string, p: NodeId)
    requires ValidConfig(c) && WellFormed(c, s) && Enabled(c, s, step) && Leads(c, s, n, k, p)
    ensures Leads(c, Do(c, s, step), n, k, p)
  {
    StepGrows(c, s, step);
    LeadsStays(c, s, Do(c, s, step), n, k, p);
  }

  lemma AfterAckStepIff(c: Config, s: State, id: nat, n: NodeId, k: string, p: NodeId)
    requires ValidConfig(c) && WellFormed(c, s) && Has(c, s, id) && s.tasks[id].Acking?
    requires TaskInv(c, s, s.tasks[id]) && Leads(c, s, n, k, p) && Reading(c, s, n, k, p)
    ensures Leads(c, DoAck(c, s, id), n, k, p)
    ensures Reading(c, DoAck(c, s, id), n, k, p) <==> AckKeeps(s, n, k, p, s.tasks[id].x)
  {
    var x := s.tasks[id].x;
    if x.sender == n && x.peerKey == k {
      AfterAckIff(c, s, n, k, p, x);
    }
  }

  lemma AfterRegisterStep(c: Config, s: State, id: nat, n: NodeId, k: string, p: NodeId)
    requires ValidConfig(c) && WellFormed(c, s) && Has(c, s, id) && s.tasks[id].Merged?
    requires Leads(c, s, n, k, p) && Reading(c, s, n, k, p)
    ensures Leads(c, DoRegister(c, s, id), n, k, p) && Reading(c, DoRegister(c, s, id), n, k, p)
  {
  }

  lemma AfterStoreStepIff(c: Config, s: State, step: Step, n: NodeId, k: string, p: NodeId)
    requires ValidConfig(c) && WellFormed(c, s) && Leads(c, s, n, k, p) && Reading(c, s, n, k, p)
    requires Enabled(c, s, step) && (step.Apply? || step.Deliver?)
    ensures Leads(c, Do(c, s, step), n, k, p)
    ensures Reading(c, Do(c, s, step), n, k, p) <==> StepKeepsReading(c, s, step, n, k, p)
  {
    StepKeepsLeads(c, s, step, n, k, p);
    if step.Apply? {
      AfterApplyIff(s, n, k, p, s.tasks[step.id].node, s.tasks[step.id].entry);
    } else {
      AfterDeliverIff(s, n, k, p, c.route[s.tasks[step.id].x.toAddr], s.tasks[step.id].x.delta);
    }
  }

  /** A step keeps the documented reading of an entry if and only if it is of the kind described
      above.  In particular steps other than a write or a delivery to this node, or an
      acknowledgement on this entry, always do. */
  lemma ReadingAfterStepIff(c: Config, s: State, step: Step, n: NodeId, k: string, p: NodeId)
    requires ValidConfig(c) && WellFormed(c, s) && TasksInv(c, s) && Enabled(c, s, step)
    requires Leads(c, s, n, k, p) && Reading(c, s, n, k, p)
    ensures Leads(c, Do(c, s, step), n, k, p)
    ensures Reading(c, Do(c, s, step), n, k, p) <==> StepKeepsReading(c, s, step, n, k, p)
  {
    StepKeepsLeads(c, s, step, n, k, p);
    if step.Apply? || step.Deliver? {
      AfterStoreStepIff(c, s, step, n, k, p);
    } else if step.Ack? {
      assert TaskInv(c, s, s.tasks[step.id]);
      AfterAckStepIff(c, s, step.id, n, k, p);
    } else if step.Register? {
      AfterRegisterStep(c, s, step.id, n, k, p);
    } else {
      TaskMoveFrame(c, s, step);
    }
  }

  // --- Which steps that leaves --------------------------------------------------------------

  /** An acknowledgement keeps the reading when nothing stamped at or below what it records has
      entered the sender's store since the message was cut. */
  lemma NothingEnteredKeepsReading(c: Config, mode: Mode, run: seq<State>, i: nat, id: nat, x: Exchange, p: NodeId)
    requires ValidConfig(c) && Run(c, mode, run) && run[0] == Init(c)
    requires var s := run[|run| - 1];
             && WellFormed(c, s) && Has(c, s, id) && s.tasks[id] == Acking(x)
             && Leads(c, s, x.sender, x.peerKey, p) && Reading(c, s, x.sender, x.peerKey, p)
    requires i < |run| && WasCutFrom(run[i], x)
    requires forall e :: e in ItemsOf(run[|run| - 1].stores[x.sender]) && e.value.timestamp <= x.maxSent ==>
               e in ItemsOf(run[i].stores[x.sender])
    ensures var s' := DoAck(c, run[|run| - 1], id);
            Leads(c, s', x.sender, x.peerKey, p) && Reading(c, s', x.sender, x.peerKey, p)
  {
    var s := run[|run| - 1];
    GrowthSince(c, mode, run, i);
    NothingNewToPass(run[i], s, x, p);
    RunTasksInv(c, mode, run);
    AfterAckStepIff(c, s, id, x.sender, x.peerKey, p);
  }

  lemma NothingNewToPass(cut: State, s: State, x: Exchange, p: NodeId)
    requires WasCutFrom(cut, x) && TablesGrow(cut.tables, s.tables)
    requires x.sender in s.stores && OnEntry(s.tables, x) && p in s.stores
    requires forall e :: e in ItemsOf(s.stores[x.sender]) && e.value.timestamp <= x.maxSent ==>
               e in ItemsOf(cut.stores[x.sender])
    ensures AckKeeps(s, x.sender, x.peerKey, p, x)
  {
    var snap :| WasCut(cut, x, snap);
    assert TableGrows(cut.tables[x.sender], s.tables[x.sender]);
  }

  lemma {:induction false} RunSuffix(c: Config, mode: Mode, run: seq<State>, i: nat)
    requires ValidConfig(c) && Run(c, mode, run) && i < |run|
    ensures Run(c, mode, run[i..])
    decreases i
  {
    if i > 0 {
      assert Next(c, mode, run[0], run[0 + 1]);
      var tail := run[1..];
      forall j | 0 <= j < |tail| - 1
        ensures Next(c, mode, tail[j], tail[j + 1])
      {
        assert Next(c, mode, run[j + 1], run[j + 1 + 1]);
      }
      var step :| Legal(c, mode, run[0], step) && run[1] == Do(c, run[0], step);
      RunSuffix(c, mode, tail, i - 1);
      assert tail[i - 1..] == run[i..];
    }
  }

  lemma GrowthSince(c: Config, mode: Mode, run: seq<State>, i: nat)
    requires ValidConfig(c) && Run(c, mode, run) && i < |run|
    ensures StateGrows(run[i], run[|run| - 1])
  {
    RunSuffix(c, mode, run, i);
    RunGrows(c, mode, run[i..]);
  }

  /** A message from the peer itself never ends the reading of the entry that leads to it. */
  lemma RepliesKeepReading(c: Config, mode: Mode, run: seq<State>, id: nat, x: Exchange, n: NodeId, k: string)
    requires ValidConfig(c) && Run(c, mode, run) && run[0] == Init(c)
    requires var s := run[|run| - 1];
             && WellFormed(c, s) && Enabled(c, s, Deliver(id)) && s.tasks[id] == Sent(x)
             && Leads(c, s, n, k, x.sender) && Reading(c, s, n, k, x.sender)
    ensures var s' := Do(c, run[|run| - 1], Deliver(id));
            Leads(c, s', n, k, x.sender) && Reading(c, s', n, k, x.sender)
  {
    var s := run[|run| - 1];
    MessagesWereCut(c, mode, run, id, x);
    var i :| 0 <= i < |run| && WasCutFrom(run[i], x);
    GrowthSince(c, mode, run, i);
    forall e | e in ItemsOf(x.delta)
      ensures Dominates(s.stores[x.sender], e)
    {
      TagTotal(e.value, e.value);
      assert Dominates(run[i].stores[x.sender], e);
      DominatesGrows(run[i].stores[x.sender], s.stores[x.sender], e);
    }
    AfterStoreStepIff(c, s, Deliver(id), n, k, x.sender);
  }

  /** The peer lacks an entry of the node at or below the watermark. */
  ghost predicate Lacking(s: State, n: NodeId, k: string, p: NodeId, e: Entry)
  {
    && n in s.stores && n in s.tables && k in s.tables[n] && p in s.stores
    && e in ItemsOf(s.stores[n]) && e.value.timestamp <= s.tables[n][k].lastSyncTs
    && !Dominates(s.stores[p], e)
  }

  /** Under H, a step that ends the reading of an entry is a delivery or an acknowledgement, and
      all that the peer then lacks at or below the watermark was written by others. */
  lemma OnlyForeignEntriesEndReading(c: Config, s: State, step: Step, n: NodeId, k: string, p: NodeId)
    requires ValidConfig(c) && Reachable(c, GoodClocks, s) && WellFormed(c, s) && Legal(c, GoodClocks, s, step)
    requires Leads(c, s, n, k, p) && Reading(c, s, n, k, p)
    ensures Leads(c, Do(c, s, step), n, k, p)
    ensures Reading(c, Do(c, s, step), n, k, p) || step.Deliver? || step.Ack?
    ensures forall e :: Lacking(Do(c, s, step), n, k, p, e) ==> e.value.nodeId != n
  {
    var s' := Do(c, s, step);
    if !step.Deliver? && !step.Ack? {
      OthersKeepReading(c, s, step, n, k, p);
    }
    StepKeepsLeads(c, s, step, n, k, p);
    ReachableNext(c, GoodClocks, s, s');
    SoundEntry(c, s', n, k, p);
  }

  lemma OthersKeepReading(c: Config, s: State, step: Step, n: NodeId, k: string, p: NodeId)
    requires ValidConfig(c) && Reachable(c, GoodClocks, s) && WellFormed(c, s) && Legal(c, GoodClocks, s, step)
    requires Leads(c, s, n, k, p) && Reading(c, s, n, k, p) && !step.Deliver? && !step.Ack?
    ensures Leads(c, Do(c, s, step), n, k, p) && Reading(c, Do(c, s, step), n, k, p)
  {
    ReachableInv(c, GoodClocks, s);
    assert s.tables[n][k].lastSyncTs <= MaxTimestamp(s.stores[n]);
    ReadingAfterStepIff(c, s, step, n, k, p);
  }

  lemma SoundEntry(c: Config, s: State, n: NodeId, k: string, p: NodeId)
    requires ValidConfig(c) && Reachable(c, GoodClocks, s) && Leads(c, s, n, k, p)
    ensures forall e :: Lacking(s, n, k, p, e) ==> e.value.nodeId != n
  {
    ReachableSound(c, s);
    assert ItemsOf(s.stores[n]) <= s.written;
    assert Covered(s.stores, s.written, n, s.tables[n][k].lastSyncTs, p);
  }
}
