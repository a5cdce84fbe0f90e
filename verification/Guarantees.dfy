/** What the cluster guarantees in every reachable state and over every run, with arbitrary
    clocks, any topology, and any loss, delay, overlap and reordering of messages. */
module Guarantees {
  import opened Crdt
  import opened StoreSpec
  import opened Protocol
  import opened Cluster
  import opened Invariants

  lemma InitInv(c: Config)
    requires ValidConfig(c)
    ensures Inv(c, Init(c))
  {
  }

  lemma NextKeepsInv(c: Config, mode: Mode, s: State, s': State)
    requires ValidConfig(c) && Inv(c, s) && Next(c, mode, s, s')
    ensures Inv(c, s') && StateGrows(s, s')
  {
    var step :| Legal(c, mode, s, step) && s' == Do(c, s, step);
    StepKeepsInv(c, s, step);
    StepGrows(c, s, step);
  }

  lemma {:induction false} RunKeepsInv(c: Config, mode: Mode, run: seq<State>)
    requires ValidConfig(c) && Run(c, mode, run) && Inv(c, run[0])
    ensures Inv(c, run[|run| - 1])
    decreases |run|
  {
    if |run| > 1 {
      RunPrefix(c, mode, run);
      RunKeepsInv(c, mode, run[..|run| - 1]);
      NextKeepsInv(c, mode, run[|run| - 2], run[|run| - 1]);
    }
  }

  /** The invariant of Invariants.dfy holds in every reachable state, whatever the clocks do. */
  lemma ReachableInv(c: Config, mode: Mode, s: State)
    requires ValidConfig(c) && Reachable(c, mode, s)
    ensures Inv(c, s)
  {
    var run :| Run(c, mode, run) && run[0] == Init(c) && run[|run| - 1] == s;
    InitInv(c);
    RunKeepsInv(c, mode, run);
  }

  /** The guard that every step repeats on its task is never what stops it. */
  lemma TasksNameNodes(c: Config, mode: Mode, s: State, id: nat)
    requires ValidConfig(c) && Reachable(c, mode, s) && id in s.tasks
    ensures TaskOk(c, s.tasks[id])
  {
    ReachableInv(c, mode, s);
    assert TaskInv(c, s, s.tasks[id]);
  }

  // --- Stores and deltas -----------------------------------------------------------------

  /** The message a task carries, if any. */
  ghost predicate Carries(t: Task, x: Exchange)
  {
    match t
    case Sent(y) => x == y
    case Merged(y) => x == y
    case Acking(y) => x == y
    case _ => false
  }

  ghost predicate DeltasWritten(tasks: map<nat, Task>, written: set<Entry>)
  {
    forall id, x :: id in tasks && Carries(tasks[id], x) ==> ItemsOf(x.delta) <= written
  }

  /** The part of the invariant that is about entries only.  It rests on distinct node ids and on
      no store being lost, and not on how table entries are keyed. */
  ghost predicate EntriesInv(c: Config, s: State)
  {
    WellFormed(c, s) && StoreInv(s.stores, s.learned, s.written) && DeltasWritten(s.tasks, s.written)
  }

  lemma ApplyKeepsEntriesInv(c: Config, s: State, id: nat)
    requires CompleteConfig(c) && EntriesInv(c, s) && Has(c, s, id) && s.tasks[id].Writing?
    ensures EntriesInv(c, DoApply(c, s, id))
  {
    StoreInvAfterSet(s.stores, s.learned, s.written, s.tasks[id].node, s.tasks[id].entry);
  }

  lemma DeliverKeepsEntriesInv(c: Config, s: State, id: nat)
    requires CompleteConfig(c) && EntriesInv(c, s) && Has(c, s, id)
    requires s.tasks[id].Sent? && s.tasks[id].x.toAddr in c.route
    ensures EntriesInv(c, DoDeliver(c, s, id))
  {
    var x := s.tasks[id].x;
    assert Carries(s.tasks[id], x);
    StoreInvAfterMerge(s.stores, s.learned, s.written, c.route[x.toAddr], x.delta);
    DeltasWrittenPut(s.tasks, s.written, id, Merged(x));
  }

  lemma DeltasWrittenPut(tasks: map<nat, Task>, written: set<Entry>, id: nat, t: Task)
    requires DeltasWritten(tasks, written) && forall x :: Carries(t, x) ==> ItemsOf(x.delta) <= written
    ensures DeltasWritten(tasks[id := t], written) && DeltasWritten(tasks - {id}, written)
  {
  }

  lemma BuildKeepsDeltasWritten(c: Config, s: State, id: nat)
    requires CompleteConfig(c) && EntriesInv(c, s) && Has(c, s, id) && s.tasks[id].Targeted?
    ensures DeltasWritten(DoBuild(c, s, id).tasks, s.written)
  {
    var Targeted(n, pk, snap) := s.tasks[id];
    assert ItemsOf(s.stores[n]) <= s.written;
    assert ItemsOf(DeltaSince(s.stores[n], snap.lastSyncTs)) <= ItemsOf(s.stores[n]);
    DeltasWrittenPut(s.tasks, s.written, id, Sent(Cut(s.stores[n], n, pk, snap)));
  }

  lemma TaskMoveKeepsDeltasWritten(c: Config, s: State, step: Step)
    requires CompleteConfig(c) && EntriesInv(c, s) && Enabled(c, s, step) && MovesTaskOnly(step)
    ensures DeltasWritten(Do(c, s, step).tasks, s.written)
  {
    if step.Build? {
      BuildKeepsDeltasWritten(c, s, step.id);
    } else if step.Stamp? {
      DeltasWrittenPut(s.tasks, s.written, step.id,
                       Writing(step.node, Entry(step.key, LwwValue(step.value, step.now, step.node))));
    } else if step.Target? {
      DeltasWrittenPut(s.tasks, s.written, step.id,
                       Targeted(step.node, step.peerKey, s.tables[step.node][step.peerKey]));
    } else {
      assert Do(c, s, step) == DropTask(s, step.id);
    }
  }

  lemma RegisterOrAckKeepsEntriesInv(c: Config, s: State, step: Step)
    requires CompleteConfig(c) && EntriesInv(c, s) && Enabled(c, s, step) && (step.Register? || step.Ack?)
    ensures EntriesInv(c, Do(c, s, step))
  {
    assert Carries(s.tasks[step.id], s.tasks[step.id].x);
    DeltasWrittenPut(s.tasks, s.written, step.id, Acking(s.tasks[step.id].x));
    QuietStepFrame(c, s, step);
  }

  lemma StepKeepsEntriesInv(c: Config, s: State, step: Step)
    requires CompleteConfig(c) && EntriesInv(c, s) && Enabled(c, s, step)
    ensures EntriesInv(c, Do(c, s, step))
  {
    if step.Apply? {
      ApplyKeepsEntriesInv(c, s, step.id);
    } else if step.Deliver? {
      DeliverKeepsEntriesInv(c, s, step.id);
    } else if MovesTaskOnly(step) {
      TaskMoveFrame(c, s, step);
      TaskMoveKeepsDeltasWritten(c, s, step);
    } else {
      RegisterOrAckKeepsEntriesInv(c, s, step);
    }
  }

  lemma {:induction false} RunKeepsEntriesInv(c: Config, mode: Mode, run: seq<State>)
    requires CompleteConfig(c) && Run(c, mode, run) && EntriesInv(c, run[0])
    ensures EntriesInv(c, run[|run| - 1])
    decreases |run|
  {
    if |run| > 1 {
      RunPrefix(c, mode, run);
      var s := run[|run| - 2];
      RunKeepsEntriesInv(c, mode, run[..|run| - 1]);
      var step :| Legal(c, mode, s, step) && run[|run| - 1] == Do(c, s, step);
      StepKeepsEntriesInv(c, s, step);
    }
  }

  lemma ReachableEntriesInv(c: Config, mode: Mode, s: State)
    requires CompleteConfig(c) && Reachable(c, mode, s)
    ensures EntriesInv(c, s)
  {
    var run :| Run(c, mode, run) && run[0] == Init(c) && run[|run| - 1] == s;
    RunKeepsEntriesInv(c, mode, run);
  }

  // --- Tags ---------------------------------------------------------------------------

  /** The entry is in some store or in some delta under way. */
  ghost predicate Visible(s: State, e: Entry)
  {
    || (exists n :: n in s.stores && e in ItemsOf(s.stores[n]))
    || (exists id, x :: id in s.tasks && Carries(s.tasks[id], x) && e in ItemsOf(x.delta))
  }

  lemma VisibleIsWritten(c: Config, s: State, e: Entry)
    requires EntriesInv(c, s) && Visible(s, e)
    ensures e in s.written
  {
    if n :| n in s.stores && e in ItemsOf(s.stores[n]) {
      assert ItemsOf(s.stores[n]) <= s.written;
    }
  }

  /** Tag uniqueness: across all stores and all deltas under way, the same key, timestamp
      and node id mean the same value.  Clocks may repeat or go back; distinct node ids and
      no lost state are what this rests on. */
  lemma TagUniqueness(c: Config, mode: Mode, s: State, a: Entry, b: Entry)
    requires CompleteConfig(c) && Reachable(c, mode, s)
    requires Visible(s, a) && Visible(s, b) && a.key == b.key && SameTag(a.value, b.value)
    ensures a == b
  {
    ReachableEntriesInv(c, mode, s);
    VisibleIsWritten(c, s, a);
    VisibleIsWritten(c, s, b);
  }

  /** So, on values that can meet in this system, the merge is commutative after all. */
  lemma MergeCommutesWhereReachable(c: Config, mode: Mode, s: State, a: Entry, b: Entry)
    requires CompleteConfig(c) && Reachable(c, mode, s)
    requires Visible(s, a) && Visible(s, b) && a.key == b.key
    ensures Merge(a.value, b.value) == Merge(b.value, a.value)
  {
    MergeCommutesIff(a.value, b.value);
    if SameTag(a.value, b.value) {
      TagUniqueness(c, mode, s, a, b);
    }
  }

  /** Every entry, wherever it is seen, names a node of the cluster whose own store still
      dominates it. */
  lemma EntriesComeFromTheirAuthors(c: Config, mode: Mode, s: State, e: Entry)
    requires CompleteConfig(c) && Reachable(c, mode, s) && Visible(s, e)
    ensures e in s.written && e.value.nodeId in c.nodes
    ensures e.value.nodeId in s.stores && Dominates(s.stores[e.value.nodeId], e)
  {
    ReachableEntriesInv(c, mode, s);
    VisibleIsWritten(c, s, e);
  }

  // --- Refinement to a grow-only set -----------------------------------------------------

  /** Each store is the per-key maximum of the writes its node has learned, and that set
      alone determines it: nodes that learned the same writes hold the same map. */
  lemma StoreRefinesLearnedSet(c: Config, mode: Mode, s: State, n: NodeId, m: NodeId)
    requires CompleteConfig(c) && Reachable(c, mode, s) && n in c.nodes && m in c.nodes
    ensures n in s.stores && m in s.stores && n in s.learned && m in s.learned
    ensures IsJoin(s.stores[n], s.learned[n])
    ensures s.learned[n] == s.learned[m] ==> s.stores[n] == s.stores[m]
  {
    ReachableEntriesInv(c, mode, s);
    assert IsJoin(s.stores[m], s.learned[m]);
    if s.learned[n] == s.learned[m] {
      MutualDominationIsEquality(s.stores[n], s.stores[m], s.written);
    }
  }

  /** Merging a message is set union at the receiver; when it has learned all of the delta
      before, as on a retry after a lost acknowledgement, the store stays as it is. */
  lemma DeliverIsUnion(c: Config, s: State, id: nat)
    requires CompleteConfig(c) && EntriesInv(c, s) && Enabled(c, s, Deliver(id))
    ensures var x, s' := s.tasks[id].x, Do(c, s, Deliver(id));
            var p := c.route[x.toAddr];
            && s'.learned == s.learned[p := s.learned[p] + ItemsOf(x.delta)]
            && IsJoin(s'.stores[p], s.learned[p] + ItemsOf(x.delta))
            && (ItemsOf(x.delta) <= s.learned[p] ==> s'.stores[p] == s.stores[p])
  {
    var x := s.tasks[id].x;
    var p := c.route[x.toAddr];
    JoinUnion(s.stores[p], s.learned[p], x.delta);
    JoinMapUnchangedIff(s.stores[p], x.delta);
  }

  /** A local write is set insertion, unless it loses to what its own store holds already;
      then it is dropped and no node will ever see it. */
  lemma ApplyIsInsertion(c: Config, s: State, id: nat)
    requires CompleteConfig(c) && EntriesInv(c, s) && Enabled(c, s, Apply(id))
    ensures var Writing(n, e) := s.tasks[id];
            var s' := Do(c, s, Apply(id));
            if Dominates(s.stores[n], e) then
              s'.stores[n] == s.stores[n] && s'.learned[n] == s.learned[n] && s'.written == s.written
            else
              && s'.learned[n] == s.learned[n] + {e} && s'.written == s.written + {e}
              && e.key in s'.stores[n] && s'.stores[n][e.key] == e.value
              && IsJoin(s'.stores[n], s.learned[n] + {e})
  {
    var Writing(n, e) := s.tasks[id];
    MergeEntryEffect(s.stores[n], e);
    JoinInsert(s.stores[n], s.learned[n], e);
  }

  // --- Acknowledged deltas and watermarks --------------------------------------------------

  /** Confirmed delivery: every entry of every acknowledged delta is dominated by the
      receiver's store in that state and in every later one. */
  lemma ConfirmedDelivery(c: Config, mode: Mode, run: seq<State>, x: Exchange, e: Entry)
    requires ValidConfig(c) && Run(c, mode, run) && Reachable(c, mode, run[0])
    requires x in run[0].acked && e in ItemsOf(x.delta)
    ensures x.toAddr in c.route && c.route[x.toAddr] in run[|run| - 1].stores
    ensures Dominates(run[|run| - 1].stores[c.route[x.toAddr]], e)
  {
    ReachableInv(c, mode, run[0]);
    RunGrows(c, mode, run);
    assert WasDelivered(c, run[0], x);
    HeldGrows(c, run[0].stores, run[|run| - 1].stores, x);
  }

  /** A table entry's watermark is exactly the largest timestamp over the deltas
      acknowledged on it, or 0; and it is within the node's own store. */
  lemma WatermarkIsLargestAcknowledged(c: Config, mode: Mode, s: State, n: NodeId, key: string)
    requires ValidConfig(c) && Reachable(c, mode, s) && n in s.tables && key in s.tables[n]
    ensures IsAckMaximum(s.acked, n, key, s.tables[n][key].lastSyncTs)
    ensures forall x :: x in s.acked ==> x.maxSent == MaxTimestamp(x.delta)
    ensures n in s.stores && s.tables[n][key].lastSyncTs <= MaxTimestamp(s.stores[n])
  {
    ReachableInv(c, mode, s);
    forall x | x in s.acked
      ensures x.maxSent == MaxTimestamp(x.delta)
    {
      assert WasDelivered(c, s, x);
    }
  }

  /** What a message in flight will advance the watermark to is within the sender's store,
      however long it is under way. */
  lemma InFlightWithinSender(c: Config, mode: Mode, s: State, id: nat, x: Exchange)
    requires ValidConfig(c) && Reachable(c, mode, s) && id in s.tasks && Carries(s.tasks[id], x)
    ensures x.sender in s.stores && x.maxSent == MaxTimestamp(x.delta) <= MaxTimestamp(s.stores[x.sender])
  {
    ReachableInv(c, mode, s);
    assert TaskInv(c, s, s.tasks[id]);
  }

  /** The message was cut from this state's store of its sender, with a snapshot of its table
      entry that is as old as the state or older. */
  ghost predicate WasCut(s: State, x: Exchange, snap: Peer)
  {
    && x.sender in s.stores && x == Cut(s.stores[x.sender], x.sender, x.peerKey, snap)
    && OnEntry(s.tables, x) && snap.lastSyncTs <= s.tables[x.sender][x.peerKey].lastSyncTs
  }

  ghost predicate WasCutFrom(s: State, x: Exchange)
  {
    exists snap :: WasCut(s, x, snap)
  }

  ghost predicate CutIn(run: seq<State>, x: Exchange)
  {
    exists i :: 0 <= i < |run| && WasCutFrom(run[i], x)
  }

  lemma CutInLonger(run: seq<State>, x: Exchange)
    requires |run| > 0 && CutIn(run[..|run| - 1], x)
    ensures CutIn(run, x)
  {
    var i :| 0 <= i < |run| - 1 && WasCutFrom(run[..|run| - 1][i], x);
    assert WasCutFrom(run[i], x);
  }

  /** A message after a step was under way before it, or has just been cut. */
  ghost predicate HasOrigin(s: State, id: nat, x: Exchange)
  {
    (id in s.tasks && Carries(s.tasks[id], x)) || WasCutFrom(s, x)
  }

  lemma BuildOrigin(c: Config, s: State, built: nat, id: nat, x: Exchange)
    requires ValidConfig(c) && WellFormed(c, s) && Has(c, s, built) && s.tasks[built].Targeted?
    requires TasksInv(c, s)
    requires id in DoBuild(c, s, built).tasks && Carries(DoBuild(c, s, built).tasks[id], x)
    ensures HasOrigin(s, id, x)
  {
    if id == built {
      assert TaskInv(c, s, s.tasks[built]);
      assert WasCut(s, x, s.tasks[built].snap);
    }
  }

  lemma HandoverOrigin(s: State, handed: nat, id: nat, x: Exchange, t: Task)
    requires handed in s.tasks && (s.tasks[handed].Sent? || s.tasks[handed].Merged?)
    requires t == Merged(s.tasks[handed].x) || t == Acking(s.tasks[handed].x)
    requires id in s.tasks[handed := t] && Carries(s.tasks[handed := t][id], x)
    ensures HasOrigin(s, id, x)
  {
  }

  lemma DeliverOrigin(c: Config, s: State, delivered: nat, id: nat, x: Exchange)
    requires ValidConfig(c) && WellFormed(c, s) && Has(c, s, delivered) && s.tasks[delivered].Sent?
    requires s.tasks[delivered].x.toAddr in c.route
    requires id in DoDeliver(c, s, delivered).tasks && Carries(DoDeliver(c, s, delivered).tasks[id], x)
    ensures HasOrigin(s, id, x)
  {
    HandoverOrigin(s, delivered, id, x, Merged(s.tasks[delivered].x));
  }

  lemma RegisterOrigin(c: Config, s: State, registered: nat, id: nat, x: Exchange)
    requires ValidConfig(c) && WellFormed(c, s) && Has(c, s, registered) && s.tasks[registered].Merged?
    requires id in DoRegister(c, s, registered).tasks && Carries(DoRegister(c, s, registered).tasks[id], x)
    ensures HasOrigin(s, id, x)
  {
    HandoverOrigin(s, registered, id, x, Acking(s.tasks[registered].x));
  }

  lemma PutOrigin(s: State, put: nat, t: Task, id: nat, x: Exchange)
    requires t.Writing? || t.Targeted?
    requires id in s.tasks[put := t] && Carries(s.tasks[put := t][id], x)
    ensures HasOrigin(s, id, x)
  {
  }

  lemma TaskMoveOrigin(c: Config, s: State, step: Step, id: nat, x: Exchange)
    requires ValidConfig(c) && WellFormed(c, s) && TasksInv(c, s) && Enabled(c, s, step) && MovesTaskOnly(step)
    requires id in Do(c, s, step).tasks && Carries(Do(c, s, step).tasks[id], x)
    ensures HasOrigin(s, id, x)
  {
    if step.Build? {
      BuildOrigin(c, s, step.id, id, x);
    } else if step.Stamp? {
      PutOrigin(s, step.id, Writing(step.node, Entry(step.key, LwwValue(step.value, step.now, step.node))), id, x);
    } else if step.Target? {
      PutOrigin(s, step.id, Targeted(step.node, step.peerKey, s.tables[step.node][step.peerKey]), id, x);
    }
  }

  lemma HandlingOrigin(c: Config, s: State, step: Step, id: nat, x: Exchange)
    requires ValidConfig(c) && WellFormed(c, s) && Enabled(c, s, step) && !MovesTaskOnly(step)
    requires id in Do(c, s, step).tasks && Carries(Do(c, s, step).tasks[id], x)
    ensures HasOrigin(s, id, x)
  {
    if step.Deliver? {
      DeliverOrigin(c, s, step.id, id, x);
    } else if step.Register? {
      RegisterOrigin(c, s, step.id, id, x);
    } else {
      assert Do(c, s, step).tasks == s.tasks - {step.id};
    }
  }

  lemma MessageOrigin(c: Config, s: State, step: Step, id: nat, x: Exchange)
    requires ValidConfig(c) && WellFormed(c, s) && TasksInv(c, s) && Enabled(c, s, step)
    requires id in Do(c, s, step).tasks && Carries(Do(c, s, step).tasks[id], x)
    ensures HasOrigin(s, id, x)
  {
    if MovesTaskOnly(step) {
      TaskMoveOrigin(c, s, step, id, x);
    } else {
      HandlingOrigin(c, s, step, id, x);
    }
  }

  lemma RunTasksInv(c: Config, mode: Mode, run: seq<State>)
    requires ValidConfig(c) && Run(c, mode, run) && run[0] == Init(c)
    ensures TasksInv(c, run[|run| - 1])
  {
    InitInv(c);
    RunKeepsInv(c, mode, run);
  }

  lemma NextOrigin(c: Config, mode: Mode, s: State, s': State, id: nat, x: Exchange)
    requires ValidConfig(c) && TasksInv(c, s) && Next(c, mode, s, s')
    requires id in s'.tasks && Carries(s'.tasks[id], x)
    ensures HasOrigin(s, id, x)
  {
    var step :| Legal(c, mode, s, step) && s' == Do(c, s, step);
    MessageOrigin(c, s, step, id, x);
  }

  lemma {:induction false} MessagesWereCut(c: Config, mode: Mode, run: seq<State>, id: nat, x: Exchange)
    requires ValidConfig(c) && Run(c, mode, run) && run[0] == Init(c)
    requires id in run[|run| - 1].tasks && Carries(run[|run| - 1].tasks[id], x)
    ensures CutIn(run, x)
    decreases |run|
  {
    if |run| > 1 {
      var s := run[|run| - 2];
      RunPrefix(c, mode, run);
      RunTasksInv(c, mode, run[..|run| - 1]);
      NextOrigin(c, mode, s, run[|run| - 1], id, x);
      if WasCutFrom(s, x) {
        assert WasCutFrom(run[|run| - 2], x);
      } else {
        MessagesWereCut(c, mode, run[..|run| - 1], id, x);
        CutInLonger(run, x);
      }
    }
  }

  /** The recorded sync point reconciles its two descriptions: an acknowledgement moves the
      watermark to the maximum of its old value and, for a non-empty delta, the largest
      timestamp that the sender's store had when the delta was cut. */
  lemma AckRecordsStoreMaximum(c: Config, mode: Mode, run: seq<State>, id: nat) returns (i: nat)
    requires ValidConfig(c) && Run(c, mode, run) && run[0] == Init(c)
    requires WellFormed(c, run[|run| - 1]) && Enabled(c, run[|run| - 1], Ack(id))
    ensures i < |run| && WasCutFrom(run[i], run[|run| - 1].tasks[id].x)
    ensures var s := run[|run| - 1];
            var x := s.tasks[id].x;
            && x.sender in run[i].stores && OnEntry(s.tables, x)
            && Do(c, s, Ack(id)).tables[x.sender][x.peerKey].lastSyncTs ==
               Max(s.tables[x.sender][x.peerKey].lastSyncTs,
                   if x.delta == map[] then 0 else MaxTimestamp(run[i].stores[x.sender]))
  {
    var s := run[|run| - 1];
    var x := s.tasks[id].x;
    MessagesWereCut(c, mode, run, id, x);
    i :| 0 <= i < |run| && WasCutFrom(run[i], x);
    var snap :| WasCut(run[i], x, snap);
    assert Reachable(c, mode, s);
    ReachableInv(c, mode, s);
    assert TaskInv(c, s, s.tasks[id]);
    DeltaMaximumIsStoreMaximum(run[i].stores[x.sender], snap.lastSyncTs);
  }

  // --- Discovery --------------------------------------------------------------------------

  /** Two-way discovery: if nodes answer at the addresses they advertise, then once a node's
      entry has counted an exchange, the node it reaches has an entry that reaches back; so skipping empty
      deltas never cuts a pair off. */
  lemma TwoWayDiscovery(c: Config, mode: Mode, s: State, n: NodeId, key: string)
    requires ValidConfig(c) && Reachable(c, mode, s) && n in s.tables && key in s.tables[n]
    requires OwnAddresses(c) && s.tables[n][key].exchangeCount > 0
    ensures AddrOf(c, key) == s.tables[n][key].addr && AddrOf(c, key) in c.route
    ensures var p := c.route[AddrOf(c, key)];
            p in s.tables && exists k :: k in s.tables[p] && s.tables[p][k].addr in c.route &&
                                         c.route[s.tables[p][k].addr] == n
  {
    ReachableInv(c, mode, s);
    assert Shaped(c, s.tables[n]);
    assert KnownBack(c, s.tables, n, key);
    var p := c.route[AddrOf(c, key)];
    assert Shaped(c, s.tables[p]);
    var k :| k in s.tables[p] && Reaches(c, k, n);
    assert s.tables[p][k].addr == AddrOf(c, k);
  }
}
