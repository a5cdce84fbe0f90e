/** Messages above the bound.  Only the reading side checks it, so a sender cuts and sends the
    same message, or a larger one, round after round, and the receiver refuses it every time. */
module Oversized {
  import opened Crdt
  import opened StoreSpec
  import opened Protocol
  import opened Cluster
  import opened Invariants
  import opened Guarantees
  import opened Progress
  import opened WholeRuns
  import opened Draining

  // --- One write too big for any message --------------------------------------------------

  /** Only its author has the entry, in its store or in a message. */
  ghost predicate Confined(stores: Stores, tasks: map<nat, Task>, e: Entry)
  {
    && (forall n :: n in stores && e in ItemsOf(stores[n]) ==> n == e.value.nodeId)
    && (forall id, x :: id in tasks && tasks[id] == Sent(x) && e in ItemsOf(x.delta) ==> x.sender == e.value.nodeId)
  }

  lemma ApplyKeepsConfined(c: Config, s: State, id: nat, e: Entry)
    requires ValidConfig(c) && WellFormed(c, s) && Confined(s.stores, s.tasks, e)
    requires Has(c, s, id) && s.tasks[id].Writing?
    ensures Confined(DoApply(c, s, id).stores, DoApply(c, s, id).tasks, e)
  {
    ItemsAfterMerge(s.stores[s.tasks[id].node], s.tasks[id].entry);
  }

  lemma BuildKeepsConfined(c: Config, s: State, id: nat, e: Entry)
    requires ValidConfig(c) && WellFormed(c, s) && Confined(s.stores, s.tasks, e)
    requires Has(c, s, id) && s.tasks[id].Targeted?
    ensures Confined(DoBuild(c, s, id).stores, DoBuild(c, s, id).tasks, e)
  {
    var Targeted(n, pk, snap) := s.tasks[id];
    assert ItemsOf(DeltaSince(s.stores[n], snap.lastSyncTs)) <= ItemsOf(s.stores[n]);
  }

  lemma CarriedIsTooBig(c: Config, n: NodeId, d: Entries, e: Entry)
    requires !Fits(c, n, map[e.key := e.value])
    ensures e in ItemsOf(d) ==> !Fits(c, n, d)
  {
    if e in ItemsOf(d) && Fits(c, n, d) {
      FitsMonotone(c, n, d, map[e.key := e.value]);
    }
  }

  /** A message with the entry cannot get through, so what does brings it nowhere. */
  lemma DeliverKeepsConfined(c: Config, s: State, id: nat, e: Entry)
    requires ValidConfig(c) && WellFormed(c, s) && Confined(s.stores, s.tasks, e)
    requires !Fits(c, e.value.nodeId, map[e.key := e.value])
    requires Has(c, s, id) && s.tasks[id].Sent? && Deliverable(c, s.tasks[id].x)
    ensures Confined(DoDeliver(c, s, id).stores, DoDeliver(c, s, id).tasks, e)
  {
    var x := s.tasks[id].x;
    CarriedIsTooBig(c, e.value.nodeId, x.delta, e);
    JoinMapEffect(s.stores[c.route[x.toAddr]], x.delta);
  }

  lemma PutKeepsConfined(stores: Stores, tasks: map<nat, Task>, id: nat, t: Task, e: Entry)
    requires Confined(stores, tasks, e) && !t.Sent?
    ensures Confined(stores, tasks[id := t], e) && Confined(stores, tasks - {id}, e)
  {
  }

  lemma OtherStepKeepsConfined(c: Config, s: State, step: Step, e: Entry)
    requires ValidConfig(c) && WellFormed(c, s) && Confined(s.stores, s.tasks, e) && Enabled(c, s, step)
    requires !step.Apply? && !step.Build? && !step.Deliver?
    ensures Confined(Do(c, s, step).stores, Do(c, s, step).tasks, e)
  {
    QuietStepFrame(c, s, step);
    if step.Ack? || step.Lose? {
      PutKeepsConfined(s.stores, s.tasks, step.id, Writing(e.value.nodeId, e), e);
    } else {
      PutKeepsConfined(s.stores, s.tasks, step.id, Do(c, s, step).tasks[step.id], e);
    }
  }

  lemma StepKeepsConfined(c: Config, s: State, step: Step, e: Entry)
    requires ValidConfig(c) && WellFormed(c, s) && Confined(s.stores, s.tasks, e)
    requires !Fits(c, e.value.nodeId, map[e.key := e.value]) && Enabled(c, s, step)
    ensures Confined(Do(c, s, step).stores, Do(c, s, step).tasks, e)
  {
    if step.Apply? {
      ApplyKeepsConfined(c, s, step.id, e);
    } else if step.Build? {
      BuildKeepsConfined(c, s, step.id, e);
    } else if step.Deliver? {
      DeliverKeepsConfined(c, s, step.id, e);
    } else {
      OtherStepKeepsConfined(c, s, step, e);
    }
  }

  lemma {:induction false} RunKeepsConfined(c: Config, mode: Mode, run: seq<State>, e: Entry)
    requires ValidConfig(c) && Run(c, mode, run) && Confined(run[0].stores, run[0].tasks, e)
    requires !Fits(c, e.value.nodeId, map[e.key := e.value])
    ensures Confined(run[|run| - 1].stores, run[|run| - 1].tasks, e)
    decreases |run|
  {
    if |run| > 1 {
      RunPrefix(c, mode, run);
      var s := run[|run| - 2];
      RunKeepsConfined(c, mode, run[..|run| - 1], e);
      var step :| Legal(c, mode, s, step) && run[|run| - 1] == Do(c, s, step);
      StepKeepsConfined(c, s, step, e);
    }
  }

  /** A write that does not fit into a message of its author on its own never leaves its author,
      with any clocks and any topology. */
  lemma OversizedStaysAtAuthor(c: Config, mode: Mode, s: State, e: Entry, n: NodeId)
    requires ValidConfig(c) && Reachable(c, mode, s)
    requires !Fits(c, e.value.nodeId, map[e.key := e.value])
    requires n in s.stores && e in ItemsOf(s.stores[n])
    ensures n == e.value.nodeId
  {
    var run :| Run(c, mode, run) && run[0] == Init(c) && run[|run| - 1] == s;
    RunKeepsConfined(c, mode, run, e);
  }

  // --- Entries that can never advance -----------------------------------------------------

  /** Whatever store the node may come to hold without further writes, it has nothing above `t`
      to send, or too much. */
  ghost predicate NeverUseful(c: Config, m: Entries, written: set<Entry>, n: NodeId, t: nat)
  {
    forall m' :: Grows(m, m') && ItemsOf(m') <= written ==>
      DeltaSince(m', t) == map[] || !Fits(c, n, DeltaSince(m', t))
  }

  /** A task on the entry that may still move its watermark above `t`. */
  ghost predicate Underway(c: Config, task: Task, n: NodeId, k: string, t: nat)
  {
    match task
    case Sent(x) => x.sender == n && x.peerKey == k && x.maxSent > t && Deliverable(c, x)
    case Merged(x) => x.sender == n && x.peerKey == k && x.maxSent > t
    case Acking(x) => x.sender == n && x.peerKey == k && x.maxSent > t
    case _ => false
  }

  ghost predicate NoneUnderway(c: Config, tasks: map<nat, Task>, n: NodeId, k: string, t: nat)
  {
    forall id :: id in tasks ==> !Underway(c, tasks[id], n, k, t)
  }

  ghost predicate Clogged(c: Config, s: State, n: NodeId, k: string, t: nat)
  {
    && n in s.stores && n in s.tables && k in s.tables[n] && s.tables[n][k].lastSyncTs == t
    && NeverUseful(c, s.stores[n], s.written, n, t)
    && NoneUnderway(c, s.tasks, n, k, t)
  }

  /** A message cut from an older watermark is no smaller, and when nothing is above `t` it does
      not reach above `t` either. */
  lemma CutIsUseless(c: Config, m: Entries, written: set<Entry>, n: NodeId, k: string, t: nat, snap: Peer)
    requires NeverUseful(c, m, written, n, t) && ItemsOf(m) <= written && snap.lastSyncTs <= t
    ensures !Underway(c, Sent(Cut(m, n, k, snap)), n, k, t)
  {
    DeltaMaximumIsStoreMaximum(m, t);
    DeltaMaximumIsStoreMaximum(m, snap.lastSyncTs);
    assert Grows(m, m);
    if Fits(c, n, DeltaSince(m, snap.lastSyncTs)) {
      FitsMonotone(c, n, DeltaSince(m, snap.lastSyncTs), DeltaSince(m, t));
    }
  }

  lemma BuildKeepsClogged(c: Config, s: State, id: nat, n: NodeId, k: string, t: nat)
    requires ValidConfig(c) && WellFormed(c, s) && Sourced(s.stores, s.written) && TasksInv(c, s)
    requires Clogged(c, s, n, k, t) && Has(c, s, id) && s.tasks[id].Targeted?
    ensures Clogged(c, DoBuild(c, s, id), n, k, t)
  {
    var Targeted(m, pk, snap) := s.tasks[id];
    assert TaskInv(c, s, s.tasks[id]);
    if m == n && pk == k {
      CutIsUseless(c, s.stores[n], s.written, n, k, t, snap);
    }
  }

  lemma NeverUsefulGrows(c: Config, m: Entries, m': Entries, written: set<Entry>, n: NodeId, t: nat)
    requires NeverUseful(c, m, written, n, t) && Grows(m, m')
    ensures NeverUseful(c, m', written, n, t)
  {
    forall m'' | Grows(m', m'') && ItemsOf(m'') <= written
      ensures DeltaSince(m'', t) == map[] || !Fits(c, n, DeltaSince(m'', t))
    {
      GrowsTransitive(m, m', m'');
    }
  }

  lemma DeliverKeepsClogged(c: Config, s: State, id: nat, n: NodeId, k: string, t: nat)
    requires ValidConfig(c) && WellFormed(c, s) && Clogged(c, s, n, k, t)
    requires Has(c, s, id) && s.tasks[id].Sent? && Deliverable(c, s.tasks[id].x)
    ensures Clogged(c, DoDeliver(c, s, id), n, k, t)
  {
    var x := s.tasks[id].x;
    JoinMapEffect(s.stores[c.route[x.toAddr]], x.delta);
    var s' := DoDeliver(c, s, id);
    NeverUsefulGrows(c, s.stores[n], s'.stores[n], s.written, n, t);
  }

  lemma RegisterKeepsClogged(c: Config, s: State, id: nat, n: NodeId, k: string, t: nat)
    requires ValidConfig(c) && WellFormed(c, s) && Clogged(c, s, n, k, t)
    requires Has(c, s, id) && s.tasks[id].Merged?
    ensures Clogged(c, DoRegister(c, s, id), n, k, t)
  {
    assert !Underway(c, s.tasks[id], n, k, t);
  }

  lemma AckKeepsClogged(c: Config, s: State, id: nat, n: NodeId, k: string, t: nat)
    requires ValidConfig(c) && WellFormed(c, s) && Clogged(c, s, n, k, t)
    requires Has(c, s, id) && s.tasks[id].Acking?
    ensures Clogged(c, DoAck(c, s, id), n, k, t)
  {
    assert !Underway(c, s.tasks[id], n, k, t);
  }

  lemma MessageStepKeepsClogged(c: Config, s: State, step: Step, n: NodeId, k: string, t: nat)
    requires ValidConfig(c) && WellFormed(c, s) && Clogged(c, s, n, k, t)
    requires Enabled(c, s, step) && (step.Deliver? || step.Register? || step.Ack?)
    ensures Clogged(c, Do(c, s, step), n, k, t)
  {
    if step.Deliver? {
      DeliverKeepsClogged(c, s, step.id, n, k, t);
    } else if step.Register? {
      RegisterKeepsClogged(c, s, step.id, n, k, t);
    } else {
      AckKeepsClogged(c, s, step.id, n, k, t);
    }
  }

  lemma StepKeepsClogged(c: Config, s: State, step: Step, n: NodeId, k: string, t: nat)
    requires ValidConfig(c) && WellFormed(c, s) && Sourced(s.stores, s.written) && TasksInv(c, s)
    requires Clogged(c, s, n, k, t) && Enabled(c, s, step) && !step.Apply?
    ensures Clogged(c, Do(c, s, step), n, k, t)
  {
    if step.Build? {
      BuildKeepsClogged(c, s, step.id, n, k, t);
    } else if step.Deliver? || step.Register? || step.Ack? {
      MessageStepKeepsClogged(c, s, step, n, k, t);
    }
  }

  /** An entry whose delta is too big, and stays so whatever its node may still take in, never
      advances in any run without writes. */
  lemma {:induction false} CloggedStays(c: Config, run: seq<State>, n: NodeId, k: string, t: nat)
    requires ValidConfig(c) && Run(c, NoWrites, run) && Inv(c, run[0])
    requires Clogged(c, run[0], n, k, t)
    ensures Clogged(c, run[|run| - 1], n, k, t)
    decreases |run|
  {
    if |run| > 1 {
      RunPrefix(c, NoWrites, run);
      var s := run[|run| - 2];
      CloggedStays(c, run[..|run| - 1], n, k, t);
      RunKeepsInv(c, NoWrites, run[..|run| - 1]);
      var step :| Legal(c, NoWrites, s, step) && run[|run| - 1] == Do(c, s, step);
      StepKeepsClogged(c, s, step, n, k, t);
    }
  }

  // --- Exactly when an entry can advance ----------------------------------------------------

  /** A store that dominates every write has nothing left to take in. */
  lemma FinalStoreStays(m: Entries, m': Entries, written: set<Entry>)
    requires forall e :: e in written ==> Dominates(m, e)
    requires Grows(m, m') && ItemsOf(m') <= written
    ensures m' == m
  {
    forall k | k in m'
      ensures k in m && m[k] == m'[k]
    {
      assert Entry(k, m'[k]) in ItemsOf(m');
      assert Dominates(m, Entry(k, m'[k]));
    }
  }

  lemma FinalEntryIsClogged(c: Config, s: State, n: NodeId, k: string)
    requires n in c.nodes && n in s.stores && n in s.tables && k in s.tables[n] && s.tables[n][k].addr in c.route
    requires forall e :: e in s.written ==> Dominates(s.stores[n], e)
    requires !CanSend(c, s, n, k) && NoneUnderway(c, s.tasks, n, k, s.tables[n][k].lastSyncTs)
    ensures Clogged(c, s, n, k, s.tables[n][k].lastSyncTs)
  {
    var t := s.tables[n][k].lastSyncTs;
    forall m' | Grows(s.stores[n], m') && ItemsOf(m') <= s.written
      ensures DeltaSince(m', t) == map[] || !Fits(c, n, DeltaSince(m', t))
    {
      FinalStoreStays(s.stores[n], m', s.written);
    }
  }

  lemma RecordedAdvances(c: Config, s: State, x: Exchange)
    requires ValidConfig(c) && WellFormed(c, s) && x.sender in c.nodes && OnEntry(s.tables, x)
    ensures OnEntry(Recorded(c, s, x).tables, x)
    ensures x.maxSent <= Recorded(c, s, x).tables[x.sender][x.peerKey].lastSyncTs
  {
  }

  lemma RegisteredKeepsEntry(c: Config, s: State, x: Exchange, y: Exchange)
    requires ValidConfig(c) && WellFormed(c, s) && x.toAddr in c.route && x.sender in c.nodes && OnEntry(s.tables, y)
    ensures OnEntry(Registered(c, s, x).tables, y)
  {
  }

  ghost predicate Arrived(s: State, x: Exchange)
  {
    OnEntry(s.tables, x) && x.maxSent <= s.tables[x.sender][x.peerKey].lastSyncTs
  }

  lemma AckingCompletes(c: Config, s: State, id: nat, x: Exchange) returns (s': State)
    requires ValidConfig(c) && WellFormed(c, s) && id !in s.tasks && OnEntry(s.tables, x)
    requires x.sender in c.nodes && x.toAddr in c.route
    ensures QuietlyReaches(c, PutTask(s, id, Acking(x)), s') && Arrived(s', x)
  {
    s' := Recorded(c, s, x);
    AckIsRecorded(c, s, id, x);
    StepReaches(c, PutTask(s, id, Acking(x)), Ack(id));
    RecordedAdvances(c, s, x);
  }

  lemma MergedCompletes(c: Config, s: State, id: nat, x: Exchange) returns (s': State)
    requires ValidConfig(c) && WellFormed(c, s) && id !in s.tasks && OnEntry(s.tables, x)
    requires x.sender in c.nodes && x.toAddr in c.route
    ensures QuietlyReaches(c, PutTask(s, id, Merged(x)), s') && Arrived(s', x)
  {
    RegisterIsRegistered(c, s, id, x);
    StepReaches(c, PutTask(s, id, Merged(x)), Register(id));
    RegisteredKeepsEntry(c, s, x, x);
    s' := AckingCompletes(c, Registered(c, s, x), id, x);
    QuietlyReachesTransitive(c, PutTask(s, id, Merged(x)), PutTask(Registered(c, s, x), id, Acking(x)), s');
  }

  lemma SentCompletes(c: Config, s: State, id: nat, x: Exchange) returns (s': State)
    requires ValidConfig(c) && WellFormed(c, s) && id !in s.tasks && OnEntry(s.tables, x)
    requires x.sender in c.nodes && Deliverable(c, x)
    ensures QuietlyReaches(c, PutTask(s, id, Sent(x)), s') && Arrived(s', x)
  {
    DeliverIsTakenIn(c, s, id, x);
    StepReaches(c, PutTask(s, id, Sent(x)), Deliver(id));
    s' := MergedCompletes(c, TakenIn(c, s, x), id, x);
    QuietlyReachesTransitive(c, PutTask(s, id, Sent(x)), PutTask(TakenIn(c, s, x), id, Merged(x)), s');
  }

  lemma UnderwayCompletes(c: Config, s: State, id: nat, n: NodeId, k: string, t: nat) returns (s': State)
    requires ValidConfig(c) && WellFormed(c, s) && id in s.tasks && TaskInv(c, s, s.tasks[id])
    requires Underway(c, s.tasks[id], n, k, t)
    ensures QuietlyReaches(c, s, s') && Arrived(s', s.tasks[id].x)
  {
    var task := s.tasks[id];
    var s0 := DropTask(s, id);
    assert s0.tasks[id := task] == s.tasks;
    assert s == PutTask(s0, id, task);
    if task.Sent? {
      s' := SentCompletes(c, s0, id, task.x);
    } else if task.Merged? {
      s' := MergedCompletes(c, s0, id, task.x);
    } else {
      s' := AckingCompletes(c, s0, id, task.x);
    }
  }

  /** When its node has every write already, some run without writes advances an entry exactly
      when there is something to send that fits into a message, or a message under way will get
      through and move the watermark. */
  lemma EntryAdvancesIff(c: Config, s: State, n: NodeId, k: string)
    requires ValidConfig(c) && Inv(c, s)
    requires n in c.nodes && k in s.tables[n] && s.tables[n][k].addr in c.route
    requires forall e :: e in s.written ==> Dominates(s.stores[n], e)
    ensures (exists s' :: QuietlyReaches(c, s, s') && Advanced(s, s', n, k)) <==>
            CanSend(c, s, n, k) || !NoneUnderway(c, s.tasks, n, k, s.tables[n][k].lastSyncTs)
  {
    var t := s.tables[n][k].lastSyncTs;
    if CanSend(c, s, n, k) {
      CompletedReached(c, s, n, k);
      CompletedAdvances(c, s, n, k);
    } else if id :| id in s.tasks && Underway(c, s.tasks[id], n, k, t) {
      assert TaskInv(c, s, s.tasks[id]);
      var s' := UnderwayCompletes(c, s, id, n, k, t);
      assert Advanced(s, s', n, k);
    } else {
      FinalEntryIsClogged(c, s, n, k);
      forall s' | QuietlyReaches(c, s, s')
        ensures !Advanced(s, s', n, k)
      {
        var run :| Run(c, NoWrites, run) && run[0] == s && run[|run| - 1] == s';
        CloggedStays(c, run, n, k, t);
      }
    }
  }
}
