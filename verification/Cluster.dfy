/** The gossip cluster as a step machine.

    Any number of nodes run, each with a store and a peer table.  What is under way between
    two steps is a pool of tasks: a write that has been stamped and waits for the lock, a
    gossip target with its (ageing) snapshot of the table entry, a message in flight, a
    merged message whose sender is not yet registered, and an acknowledgement in flight.
    Tasks advance in any order, so sends to one peer overlap, deltas are cut from stale
    watermarks, and acknowledgements arrive reordered or never.

    `written`, `learned` and `acked` are history: no step reads them. */
module Cluster {
  import opened Crdt
  import opened StoreSpec
  import opened Protocol
  import Codec
  import Frame

  type Stores = map<NodeId, Entries>
  type Tables = map<NodeId, Table>

  /** `route` says which node answers at an address; several addresses may reach one node. */
  datatype Config = Config(
    nodes: set<NodeId>,
    gossipAddr: map<NodeId, Addr>,
    seeds: map<NodeId, seq<Addr>>,
    route: map<Addr, NodeId>)

  /** Every node has an address to advertise and a list of seeds, and only nodes answer. */
  ghost predicate CompleteConfig(c: Config)
  {
    && c.gossipAddr.Keys == c.nodes && c.seeds.Keys == c.nodes
    && forall a :: a in c.route ==> c.route[a] in c.nodes
  }

  /** And no seed string is also a node id. */
  ghost predicate ValidConfig(c: Config)
  {
    CompleteConfig(c) && forall n, a :: n in c.nodes && a in c.seeds[n] ==> a !in c.nodes
  }

  /** Each node answers at the address it puts into its messages, which a node bound to a
      wildcard address does not. */
  ghost predicate OwnAddresses(c: Config)
    requires CompleteConfig(c)
  {
    forall n :: n in c.nodes ==> c.gossipAddr[n] in c.route && c.route[c.gossipAddr[n]] == n
  }

  /** The message with this delta is within the bound that `read_message` puts on payloads.  The
      sending side does not check it. */
  ghost predicate Fits(c: Config, n: NodeId, d: Entries)
  {
    n in c.gossipAddr && Codec.MessageSize(n, c.gossipAddr[n], d) <= Frame.MAX_MESSAGE_BYTES
  }

  /** Leaving entries out of a message never makes it too big. */
  lemma FitsMonotone(c: Config, n: NodeId, d: Entries, d': Entries)
    requires ItemsOf(d') <= ItemsOf(d) && Fits(c, n, d)
    ensures Fits(c, n, d')
  {
    Codec.TotalSizeMonotone(ItemsOf(d'), ItemsOf(d));
  }

  /** One message: who sends, on which table entry, to which address, and what. */
  datatype Exchange = Exchange(
    sender: NodeId,
    peerKey: string,
    toAddr: Addr,
    delta: Entries,
    maxSent: nat)

  datatype Task =
    | Writing(node: NodeId, entry: Entry)
    | Targeted(node: NodeId, peerKey: string, snap: Peer)
    | Sent(x: Exchange)
    | Merged(x: Exchange)
    | Acking(x: Exchange)

  datatype State = State(
    stores: Stores,
    tables: Tables,
    tasks: map<nat, Task>,
    written: set<Entry>,
    learned: map<NodeId, set<Entry>>,
    acked: set<Exchange>)

  datatype Step =
    | Stamp(id: nat, node: NodeId, key: Key, value: string, now: nat)
    | Apply(id: nat)
    | Target(id: nat, node: NodeId, peerKey: string)
    | Build(id: nat)
    | Deliver(id: nat)
    | Register(id: nat)
    | Ack(id: nat)
    | Lose(id: nat)

  /** A task that names nodes of the cluster.  Every task of every reachable state does so
      (lemma TasksNameNodes); the guards below repeat it so that steps are defined on all states. */
  ghost predicate TaskOk(c: Config, t: Task)
  {
    match t
    case Writing(n, e) => n in c.nodes && e.value.nodeId == n
    case Targeted(n, _, _) => n in c.nodes
    case Sent(x) => x.sender in c.nodes
    case Merged(x) => x.sender in c.nodes && x.toAddr in c.route
    case Acking(x) => x.sender in c.nodes && x.toAddr in c.route
  }

  ghost predicate WellFormed(c: Config, s: State)
  {
    s.stores.Keys == c.nodes && s.tables.Keys == c.nodes && s.learned.Keys == c.nodes
  }

  /** The message gets through to its receiver: somebody answers, and reads it. */
  ghost predicate Deliverable(c: Config, x: Exchange)
  {
    x.toAddr in c.route && Fits(c, x.sender, x.delta)
  }

  ghost predicate Has(c: Config, s: State, id: nat)
  {
    id in s.tasks && TaskOk(c, s.tasks[id])
  }

  ghost function Init(c: Config): (s: State)
    requires CompleteConfig(c)
    ensures WellFormed(c, s)
  {
    State(
      map n | n in c.nodes :: map[],
      map n | n in c.nodes :: SeedTable(c.seeds[n]),
      map[],
      {},
      map n | n in c.nodes :: {},
      {})
  }

  ghost predicate Enabled(c: Config, s: State, step: Step)
    requires CompleteConfig(c) && WellFormed(c, s)
  {
    match step
    case Stamp(id, n, _, _, _) => id !in s.tasks && n in c.nodes
    case Apply(id) => Has(c, s, id) && s.tasks[id].Writing?
    case Target(id, n, pk) => id !in s.tasks && n in c.nodes && pk in s.tables[n]
    case Build(id) => Has(c, s, id) && s.tasks[id].Targeted?
    case Deliver(id) => Has(c, s, id) && s.tasks[id].Sent? && Deliverable(c, s.tasks[id].x)
    case Register(id) => Has(c, s, id) && s.tasks[id].Merged?
    case Ack(id) => Has(c, s, id) && s.tasks[id].Acking?
    case Lose(id) => Has(c, s, id) && (s.tasks[id].Sent? || s.tasks[id].Acking?)
  }

  ghost function PutTask(s: State, id: nat, t: Task): State
  {
    s.(tasks := s.tasks[id := t])
  }

  ghost function DropTask(s: State, id: nat): State
  {
    s.(tasks := s.tasks - {id})
  }

  /** The critical section of `set`: merge the stamped write into the author's store.  A write
      that loses the merge leaves no trace. */
  ghost function DoApply(c: Config, s: State, id: nat): (s': State)
    requires CompleteConfig(c) && WellFormed(c, s) && Has(c, s, id) && s.tasks[id].Writing?
    ensures WellFormed(c, s')
  {
    var Writing(n, e) := s.tasks[id];
    var wins := Improves(s.stores[n], e);
    s.(stores := s.stores[n := MergeEntry(s.stores[n], e)],
       tasks := s.tasks - {id},
       written := if wins then s.written + {e} else s.written,
       learned := s.learned[n := if wins then s.learned[n] + {e} else s.learned[n]])
  }

  /** The message for a target: the delta since the watermark of its snapshot. */
  ghost function Cut(store: Entries, n: NodeId, pk: string, snap: Peer): Exchange
  {
    var d := DeltaSince(store, snap.lastSyncTs);
    Exchange(n, pk, snap.addr, d, MaxTimestamp(d))
  }

  /** Cut the delta for a target, and send it or skip the target. */
  ghost function DoBuild(c: Config, s: State, id: nat): (s': State)
    requires CompleteConfig(c) && WellFormed(c, s) && Has(c, s, id) && s.tasks[id].Targeted?
    ensures WellFormed(c, s')
  {
    var Targeted(n, pk, snap) := s.tasks[id];
    var x := Cut(s.stores[n], n, pk, snap);
    s.(tasks := if Skips(snap, x.delta) then s.tasks - {id} else s.tasks[id := Sent(x)])
  }

  /** The receiver has taken in the delta. */
  ghost function TakenIn(c: Config, s: State, x: Exchange): (s': State)
    requires CompleteConfig(c) && WellFormed(c, s) && x.toAddr in c.route
    ensures WellFormed(c, s')
  {
    var p := c.route[x.toAddr];
    s.(stores := s.stores[p := JoinMap(s.stores[p], x.delta)],
       learned := s.learned[p := s.learned[p] + ItemsOf(x.delta)])
  }

  /** The receiver has registered the sender. */
  ghost function Registered(c: Config, s: State, x: Exchange): (s': State)
    requires CompleteConfig(c) && WellFormed(c, s) && x.toAddr in c.route && x.sender in c.nodes
    ensures WellFormed(c, s')
  {
    var p := c.route[x.toAddr];
    s.(tables := s.tables[p := TableSeen(s.tables[p], x.sender, c.gossipAddr[x.sender])])
  }

  /** The sender has recorded the acknowledgement. */
  ghost function Recorded(c: Config, s: State, x: Exchange): (s': State)
    requires CompleteConfig(c) && WellFormed(c, s) && x.sender in c.nodes
    ensures WellFormed(c, s')
  {
    s.(tables := s.tables[x.sender := TableAcked(s.tables[x.sender], x.peerKey, x.toAddr, x.maxSent)],
       acked := s.acked + {x})
  }

  ghost function DoDeliver(c: Config, s: State, id: nat): (s': State)
    requires CompleteConfig(c) && WellFormed(c, s)
    requires Has(c, s, id) && s.tasks[id].Sent? && s.tasks[id].x.toAddr in c.route
    ensures WellFormed(c, s')
  {
    PutTask(TakenIn(c, s, s.tasks[id].x), id, Merged(s.tasks[id].x))
  }

  ghost function DoRegister(c: Config, s: State, id: nat): (s': State)
    requires CompleteConfig(c) && WellFormed(c, s) && Has(c, s, id) && s.tasks[id].Merged?
    ensures WellFormed(c, s')
  {
    PutTask(Registered(c, s, s.tasks[id].x), id, Acking(s.tasks[id].x))
  }

  ghost function DoAck(c: Config, s: State, id: nat): (s': State)
    requires CompleteConfig(c) && WellFormed(c, s) && Has(c, s, id) && s.tasks[id].Acking?
    ensures WellFormed(c, s')
  {
    DropTask(Recorded(c, s, s.tasks[id].x), id)
  }

  /** The state after the step. */
  ghost function Do(c: Config, s: State, step: Step): (s': State)
    requires CompleteConfig(c) && WellFormed(c, s) && Enabled(c, s, step)
    ensures WellFormed(c, s')
  {
    match step
    case Stamp(id, n, k, v, now) =>
      PutTask(s, id, Writing(n, Entry(k, LwwValue(v, now, n))))
    case Apply(id) => DoApply(c, s, id)
    case Target(id, n, pk) => PutTask(s, id, Targeted(n, pk, s.tables[n][pk]))
    case Build(id) => DoBuild(c, s, id)
    case Deliver(id) => DoDeliver(c, s, id)
    case Register(id) => DoRegister(c, s, id)
    case Ack(id) => DoAck(c, s, id)
    case Lose(id) => DropTask(s, id)
  }

  // --- Runs ---------------------------------------------------------------------------

  /** Which steps a run may take. */
  datatype Mode =
    | AnyClocks   // every enabled step: clocks may repeat, jump and go back
    | GoodClocks  // writes meet the clock hypothesis H
    | NoWrites    // no write gets the lock

  /** The clock hypothesis H: when a write gets the lock, its stamp is above every timestamp
      in its own node's store (and so positive). */
  ghost predicate ClockOk(c: Config, s: State, step: Step)
    requires CompleteConfig(c) && WellFormed(c, s) && Enabled(c, s, step)
  {
    step.Apply? ==>
      MaxTimestamp(s.stores[s.tasks[step.id].node]) < s.tasks[step.id].entry.value.timestamp
  }

  ghost predicate Legal(c: Config, mode: Mode, s: State, step: Step)
    requires CompleteConfig(c) && WellFormed(c, s)
  {
    && Enabled(c, s, step)
    && (mode.GoodClocks? ==> ClockOk(c, s, step))
    && (mode.NoWrites? ==> !step.Apply?)
  }

  ghost predicate Next(c: Config, mode: Mode, s: State, s': State)
    requires CompleteConfig(c)
  {
    WellFormed(c, s) && exists step :: Legal(c, mode, s, step) && s' == Do(c, s, step)
  }

  /** A run: each state follows from the one before by a legal step. */
  ghost predicate Run(c: Config, mode: Mode, run: seq<State>)
    requires CompleteConfig(c)
  {
    && |run| > 0
    && WellFormed(c, run[0])
    && forall i :: 0 <= i < |run| - 1 ==> Next(c, mode, run[i], run[i + 1])
  }

  ghost predicate Reachable(c: Config, mode: Mode, s: State)
    requires CompleteConfig(c)
  {
    exists run :: Run(c, mode, run) && run[0] == Init(c) && run[|run| - 1] == s
  }

  lemma RunPrefix(c: Config, mode: Mode, run: seq<State>)
    requires CompleteConfig(c) && Run(c, mode, run) && |run| > 1
    ensures Run(c, mode, run[..|run| - 1])
    ensures Next(c, mode, run[|run| - 2], run[|run| - 1])
  {
    var pre := run[..|run| - 1];
    forall i | 0 <= i < |pre| - 1
      ensures Next(c, mode, pre[i], pre[i + 1])
    {
      assert pre[i] == run[i] && pre[i + 1] == run[i + 1];
    }
    assert Next(c, mode, run[|run| - 2], run[|run| - 2 + 1]);
  }

  lemma RunExtend(c: Config, mode: Mode, run: seq<State>, s': State)
    requires CompleteConfig(c) && Run(c, mode, run) && Next(c, mode, run[|run| - 1], s')
    ensures Run(c, mode, run + [s'])
  {
    var longer := run + [s'];
    forall i | 0 <= i < |longer| - 1
      ensures Next(c, mode, longer[i], longer[i + 1])
    {
      if i < |run| - 1 {
        assert Next(c, mode, run[i], run[i + 1]);
      } else {
        assert longer[i] == run[|run| - 1];
      }
    }
  }

  lemma ReachableInit(c: Config, mode: Mode)
    requires CompleteConfig(c)
    ensures Reachable(c, mode, Init(c))
  {
    assert Run(c, mode, [Init(c)]);
  }

  lemma ReachableNext(c: Config, mode: Mode, s: State, s': State)
    requires CompleteConfig(c) && Reachable(c, mode, s) && Next(c, mode, s, s')
    ensures Reachable(c, mode, s')
  {
    var run :| Run(c, mode, run) && run[0] == Init(c) && run[|run| - 1] == s;
    RunExtend(c, mode, run, s');
    assert (run + [s'])[0] == Init(c) && (run + [s'])[|run + [s']| - 1] == s';
  }

  // --- Monotone state -----------------------------------------------------------------

  /** No store loses a key or lowers an entry. */
  ghost predicate StoresGrow(stores: Stores, stores': Stores)
  {
    forall n :: n in stores ==> n in stores' && Grows(stores[n], stores'[n])
  }

  /** No peer is forgotten or changes its address, and no watermark moves back. */
  ghost predicate TablesGrow(tables: Tables, tables': Tables)
  {
    forall n :: n in tables ==> n in tables' && TableGrows(tables[n], tables'[n])
  }

  ghost predicate HistoryGrows(s: State, s': State)
  {
    && (forall n :: n in s.learned ==> n in s'.learned && s.learned[n] <= s'.learned[n])
    && s.written <= s'.written && s.acked <= s'.acked
  }

  /** What every step keeps, with any clocks. */
  ghost predicate StateGrows(s: State, s': State)
  {
    StoresGrow(s.stores, s'.stores) && TablesGrow(s.tables, s'.tables) && HistoryGrows(s, s')
  }

  lemma OneStoreGrows(stores: Stores, n: NodeId, m: Entries)
    requires n in stores && Grows(stores[n], m)
    ensures StoresGrow(stores, stores[n := m])
  {
  }

  lemma OneTableGrows(tables: Tables, n: NodeId, t: Table)
    requires n in tables && TableGrows(tables[n], t)
    ensures TablesGrow(tables, tables[n := t])
  {
  }

  lemma ApplyGrows(c: Config, s: State, id: nat)
    requires CompleteConfig(c) && WellFormed(c, s) && Has(c, s, id) && s.tasks[id].Writing?
    ensures StateGrows(s, DoApply(c, s, id))
  {
    var Writing(n, e) := s.tasks[id];
    MergeEntryEffect(s.stores[n], e);
    OneStoreGrows(s.stores, n, MergeEntry(s.stores[n], e));
  }

  lemma DeliverGrows(c: Config, s: State, id: nat)
    requires CompleteConfig(c) && WellFormed(c, s)
    requires Has(c, s, id) && s.tasks[id].Sent? && s.tasks[id].x.toAddr in c.route
    ensures StateGrows(s, DoDeliver(c, s, id))
  {
    var x := s.tasks[id].x;
    var p := c.route[x.toAddr];
    JoinMapEffect(s.stores[p], x.delta);
    OneStoreGrows(s.stores, p, JoinMap(s.stores[p], x.delta));
  }

  lemma RegisterGrows(c: Config, s: State, id: nat)
    requires CompleteConfig(c) && WellFormed(c, s) && Has(c, s, id) && s.tasks[id].Merged?
    ensures StateGrows(s, DoRegister(c, s, id))
  {
    var x := s.tasks[id].x;
    var p := c.route[x.toAddr];
    TableSeenGrows(s.tables[p], x.sender, c.gossipAddr[x.sender]);
    OneTableGrows(s.tables, p, TableSeen(s.tables[p], x.sender, c.gossipAddr[x.sender]));
  }

  lemma AckGrows(c: Config, s: State, id: nat)
    requires CompleteConfig(c) && WellFormed(c, s) && Has(c, s, id) && s.tasks[id].Acking?
    ensures StateGrows(s, DoAck(c, s, id))
  {
    var x := s.tasks[id].x;
    TableAckedGrows(s.tables[x.sender], x.peerKey, x.toAddr, x.maxSent);
    OneTableGrows(s.tables, x.sender, TableAcked(s.tables[x.sender], x.peerKey, x.toAddr, x.maxSent));
  }

  /** The steps that only move a task. */
  ghost predicate MovesTaskOnly(step: Step)
  {
    step.Stamp? || step.Target? || step.Build? || step.Lose?
  }

  lemma SameStateGrows(s: State, s': State)
    requires s'.stores == s.stores && s'.tables == s.tables
    requires s'.written == s.written && s'.learned == s.learned && s'.acked == s.acked
    ensures StateGrows(s, s')
  {
  }

  lemma TaskMoveFrame(c: Config, s: State, step: Step)
    requires CompleteConfig(c) && WellFormed(c, s) && Enabled(c, s, step) && MovesTaskOnly(step)
    ensures var s' := Do(c, s, step);
            && s'.stores == s.stores && s'.tables == s.tables
            && s'.written == s.written && s'.learned == s.learned && s'.acked == s.acked
  {
    if step.Build? {
      assert Do(c, s, step) == DoBuild(c, s, step.id);
    } else if step.Lose? {
      assert Do(c, s, step) == DropTask(s, step.id);
    }
  }

  lemma TaskMoveGrows(c: Config, s: State, step: Step)
    requires CompleteConfig(c) && WellFormed(c, s) && Enabled(c, s, step) && MovesTaskOnly(step)
    ensures StateGrows(s, Do(c, s, step))
  {
    TaskMoveFrame(c, s, step);
    SameStateGrows(s, Do(c, s, step));
  }

  lemma StepGrows(c: Config, s: State, step: Step)
    requires CompleteConfig(c) && WellFormed(c, s) && Enabled(c, s, step)
    ensures StateGrows(s, Do(c, s, step))
  {
    if step.Apply? {
      ApplyGrows(c, s, step.id);
    } else if step.Deliver? {
      DeliverGrows(c, s, step.id);
    } else if step.Register? {
      RegisterGrows(c, s, step.id);
    } else if step.Ack? {
      AckGrows(c, s, step.id);
    } else {
      TaskMoveGrows(c, s, step);
    }
  }

  /** Only a write getting the lock adds to what is written, and only that and a delivery
      touch a store. */
  lemma QuietStepFrame(c: Config, s: State, step: Step)
    requires CompleteConfig(c) && WellFormed(c, s) && Enabled(c, s, step) && !step.Apply?
    ensures Do(c, s, step).written == s.written
    ensures !step.Deliver? ==> Do(c, s, step).stores == s.stores
  {
    if MovesTaskOnly(step) {
      TaskMoveFrame(c, s, step);
    } else if step.Deliver? {
    } else if step.Register? {
    } else {
    }
  }

  lemma StateGrowsTransitive(s: State, s': State, s'': State)
    requires StateGrows(s, s') && StateGrows(s', s'')
    ensures StateGrows(s, s'')
  {
    forall n | n in s.stores
      ensures n in s''.stores && Grows(s.stores[n], s''.stores[n])
    {
      GrowsTransitive(s.stores[n], s'.stores[n], s''.stores[n]);
    }
    forall n | n in s.tables
      ensures n in s''.tables && TableGrows(s.tables[n], s''.tables[n])
    {
      assert TableGrows(s.tables[n], s'.tables[n]) && TableGrows(s'.tables[n], s''.tables[n]);
    }
  }

  /** Over a whole run, with any clocks, nothing goes back; so in particular the largest
      timestamp of a store never decreases. */
  lemma {:induction false} RunGrows(c: Config, mode: Mode, run: seq<State>)
    requires CompleteConfig(c) && Run(c, mode, run)
    ensures StateGrows(run[0], run[|run| - 1])
    ensures forall n :: n in run[0].stores && n in run[|run| - 1].stores ==>
              MaxTimestamp(run[0].stores[n]) <= MaxTimestamp(run[|run| - 1].stores[n])
    decreases |run|
  {
    var s, s' := run[0], run[|run| - 1];
    if |run| > 1 {
      RunPrefix(c, mode, run);
      var mid := run[|run| - 2];
      RunGrows(c, mode, run[..|run| - 1]);
      var step :| Legal(c, mode, mid, step) && s' == Do(c, mid, step);
      StepGrows(c, mid, step);
      StateGrowsTransitive(s, mid, s');
    } else {
      SameStateGrows(s, s');
    }
    forall n | n in s.stores && n in s'.stores
      ensures MaxTimestamp(s.stores[n]) <= MaxTimestamp(s'.stores[n])
    {
      MaxTimestampGrows(s.stores[n], s'.stores[n]);
    }
  }
}
