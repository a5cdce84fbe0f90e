/** Writes that never get to some nodes, because every table entry that leads to them is past
    the writes: the watermark rule keeps no record of what came in late. */
module Stranded {
  import opened Crdt
  import opened StoreSpec
  import opened Protocol
  import opened Cluster
  import opened Invariants
  import opened Guarantees
  import opened Convergence
  import opened Progress
  import opened WholeRuns
  import opened Draining

  /** The nodes lack the entry, and all writes that could make up for it are stamped at most `t`. */
  ghost predicate Missing(stores: Stores, written: set<Entry>, ps: set<NodeId>, e: Entry, t: nat)
  {
    && (forall p :: p in ps ==> p in stores && !Dominates(stores[p], e))
    && forall a :: a in written && a.key == e.key && TagLe(e.value, a.value) ==> a.value.timestamp <= t
  }

  /** Every entry of another node that leads to `p` has a watermark of at least `t`; and its
      node has an entry for `p` by its id, unless `t` is 0, so that `p` cannot make it start a
      new one from 0. */
  ghost predicate PastFor(c: Config, tables: Tables, p: NodeId, t: nat)
    requires ValidConfig(c)
  {
    forall m, k :: m in tables && m != p && k in tables[m] && Reaches(c, k, p) ==>
      tables[m][k].lastSyncTs >= t && (t == 0 || p in tables[m])
  }

  /** So has every node that `p`'s own table leads to. */
  ghost predicate KnownByContacts(c: Config, tables: Tables, p: NodeId, t: nat)
    requires ValidConfig(c)
  {
    forall k, m :: p in tables && k in tables[p] && m != p && Reaches(c, k, m) ==>
      m in tables && (t == 0 || p in tables[m])
  }

  ghost predicate TablesPast(c: Config, tables: Tables, ps: set<NodeId>, t: nat)
    requires ValidConfig(c)
  {
    forall p :: p in ps ==> PastFor(c, tables, p, t) && KnownByContacts(c, tables, p, t)
  }

  /** The table key leads to one of the nodes. */
  ghost predicate LeadsInto(c: Config, key: string, ps: set<NodeId>)
    requires ValidConfig(c)
  {
    AddrOf(c, key) in c.route && c.route[AddrOf(c, key)] in ps
  }

  /** Whatever store the node may come to hold without further writes, no message cut from it
      since this point makes up for the entry and fits. */
  ghost predicate NeverCarries(c: Config, m: Entries, written: set<Entry>, n: NodeId, since: nat, e: Entry)
  {
    forall m' :: Grows(m, m') && ItemsOf(m') <= written && Dominates(DeltaSince(m', since), e) ==>
      !Fits(c, n, DeltaSince(m', since))
  }

  ghost predicate TaskPast(c: Config, stores: Stores, written: set<Entry>, ps: set<NodeId>, e: Entry, task: Task)
    requires ValidConfig(c)
  {
    match task
    case Targeted(n, k, snap) =>
      n in stores && n !in ps && LeadsInto(c, k, ps) ==> NeverCarries(c, stores[n], written, n, snap.lastSyncTs, e)
    case Sent(x) => LeadsInto(c, x.peerKey, ps) ==> !Dominates(x.delta, e) || !Fits(c, x.sender, x.delta)
    case _ => true
  }

  ghost predicate TasksPast(c: Config, stores: Stores, written: set<Entry>, ps: set<NodeId>, e: Entry,
                            tasks: map<nat, Task>)
    requires ValidConfig(c)
  {
    forall id :: id in tasks ==> TaskPast(c, stores, written, ps, e, tasks[id])
  }

  /** The entry is hidden from the nodes. */
  ghost predicate Hidden(c: Config, s: State, ps: set<NodeId>, e: Entry, t: nat)
    requires ValidConfig(c)
  {
    && Missing(s.stores, s.written, ps, e, t)
    && TablesPast(c, s.tables, ps, t)
    && TasksPast(c, s.stores, s.written, ps, e, s.tasks)
  }

  // --- One lemma per step -----------------------------------------------------------------

  lemma PutKeepsHidden(c: Config, s: State, id: nat, task: Task, ps: set<NodeId>, e: Entry, t: nat)
    requires ValidConfig(c) && Hidden(c, s, ps, e, t) && TaskPast(c, s.stores, s.written, ps, e, task)
    ensures Hidden(c, PutTask(s, id, task), ps, e, t)
  {
  }

  lemma DropKeepsHidden(c: Config, s: State, id: nat, ps: set<NodeId>, e: Entry, t: nat)
    requires ValidConfig(c) && Hidden(c, s, ps, e, t)
    ensures Hidden(c, DropTask(s, id), ps, e, t)
  {
  }

  /** A watermark of at least `t` is past everything that could make up for the entry. */
  lemma PastNeverCarries(c: Config, m: Entries, written: set<Entry>, n: NodeId, since: nat, e: Entry, t: nat)
    requires forall a :: a in written && a.key == e.key && TagLe(e.value, a.value) ==> a.value.timestamp <= t
    requires t <= since
    ensures NeverCarries(c, m, written, n, since, e)
  {
    forall m' | ItemsOf(m') <= written
      ensures !Dominates(DeltaSince(m', since), e)
    {
      if e.key in DeltaSince(m', since) {
        assert Entry(e.key, m'[e.key]) in ItemsOf(m');
      }
    }
  }

  /** A message cut from such a target, or by a node that lacks the entry itself, does not bring
      it to the others. */
  lemma CutIsPast(c: Config, stores: Stores, written: set<Entry>, n: NodeId, k: string, snap: Peer,
                  ps: set<NodeId>, e: Entry, t: nat)
    requires ValidConfig(c) && Missing(stores, written, ps, e, t) && Sourced(stores, written) && n in stores
    requires TaskPast(c, stores, written, ps, e, Targeted(n, k, snap))
    ensures TaskPast(c, stores, written, ps, e, Sent(Cut(stores[n], n, k, snap)))
  {
    var m := stores[n];
    assert Grows(m, m) && ItemsOf(m) <= written;
    if n in ps && e.key in DeltaSince(m, snap.lastSyncTs) {
      assert !Dominates(m, e);
    }
  }

  lemma BuildKeepsHidden(c: Config, s: State, id: nat, ps: set<NodeId>, e: Entry, t: nat)
    requires ValidConfig(c) && WellFormed(c, s) && Sourced(s.stores, s.written) && Hidden(c, s, ps, e, t)
    requires Has(c, s, id) && s.tasks[id].Targeted?
    ensures Hidden(c, DoBuild(c, s, id), ps, e, t)
  {
    var Targeted(n, k, snap) := s.tasks[id];
    CutIsPast(c, s.stores, s.written, n, k, snap, ps, e, t);
    PutKeepsHidden(c, s, id, Sent(Cut(s.stores[n], n, k, snap)), ps, e, t);
    DropKeepsHidden(c, s, id, ps, e, t);
  }

  lemma TakenInKeepsMissing(stores: Stores, written: set<Entry>, q: NodeId, d: Entries, ps: set<NodeId>,
                            e: Entry, t: nat)
    requires Missing(stores, written, ps, e, t) && q in stores && (q in ps ==> !Dominates(d, e))
    ensures Missing(stores[q := JoinMap(stores[q], d)], written, ps, e, t)
  {
    JoinMapEffect(stores[q], d);
  }

  lemma NeverCarriesGrows(c: Config, m: Entries, m': Entries, written: set<Entry>, n: NodeId, since: nat, e: Entry)
    requires NeverCarries(c, m, written, n, since, e) && Grows(m, m')
    ensures NeverCarries(c, m', written, n, since, e)
  {
    forall m'' | Grows(m', m'') && ItemsOf(m'') <= written && Dominates(DeltaSince(m'', since), e)
      ensures !Fits(c, n, DeltaSince(m'', since))
    {
      GrowsTransitive(m, m', m'');
    }
  }

  lemma TasksPastGrows(c: Config, stores: Stores, stores': Stores, written: set<Entry>, ps: set<NodeId>, e: Entry,
                       tasks: map<nat, Task>)
    requires ValidConfig(c) && TasksPast(c, stores, written, ps, e, tasks) && StoresGrow(stores, stores')
    requires stores'.Keys == stores.Keys
    ensures TasksPast(c, stores', written, ps, e, tasks)
  {
    forall id | id in tasks
      ensures TaskPast(c, stores', written, ps, e, tasks[id])
    {
      var task := tasks[id];
      assert TaskPast(c, stores, written, ps, e, task);
      if task.Targeted? && task.node in stores && task.node !in ps && LeadsInto(c, task.peerKey, ps) {
        NeverCarriesGrows(c, stores[task.node], stores'[task.node], written, task.node, task.snap.lastSyncTs, e);
      }
    }
  }

  lemma TakenInKeepsHidden(c: Config, s: State, x: Exchange, ps: set<NodeId>, e: Entry, t: nat)
    requires ValidConfig(c) && WellFormed(c, s) && Hidden(c, s, ps, e, t) && x.toAddr in c.route
    requires c.route[x.toAddr] in ps ==> !Dominates(x.delta, e)
    ensures Hidden(c, TakenIn(c, s, x), ps, e, t)
  {
    var q := c.route[x.toAddr];
    TakenInKeepsMissing(s.stores, s.written, q, x.delta, ps, e, t);
    JoinMapEffect(s.stores[q], x.delta);
    OneStoreGrows(s.stores, q, JoinMap(s.stores[q], x.delta));
    TasksPastGrows(c, s.stores, TakenIn(c, s, x).stores, s.written, ps, e, s.tasks);
  }

  lemma DeliverKeepsHidden(c: Config, s: State, id: nat, ps: set<NodeId>, e: Entry, t: nat)
    requires ValidConfig(c) && WellFormed(c, s) && TasksInv(c, s) && Hidden(c, s, ps, e, t)
    requires Has(c, s, id) && s.tasks[id].Sent? && Deliverable(c, s.tasks[id].x)
    ensures Hidden(c, DoDeliver(c, s, id), ps, e, t)
  {
    var x := s.tasks[id].x;
    assert TaskInv(c, s, s.tasks[id]) && TaskPast(c, s.stores, s.written, ps, e, s.tasks[id]);
    TakenInKeepsHidden(c, s, x, ps, e, t);
    PutKeepsHidden(c, TakenIn(c, s, x), id, Merged(x), ps, e, t);
  }

  lemma RegisterKeepsPast(c: Config, tables: Tables, q: NodeId, sender: NodeId, peer: Peer, p: NodeId, t: nat)
    requires ValidConfig(c) && OwnAddresses(c) && PastFor(c, tables, p, t) && KnownByContacts(c, tables, p, t)
    requires q in tables && sender in c.nodes && sender in tables
    requires peer.lastSyncTs == (if sender in tables[q] then tables[q][sender].lastSyncTs else 0)
    requires sender == p && q != p ==> t == 0 || p in tables[q]
    requires q == p && sender != p ==> t == 0 || p in tables[sender]
    ensures PastFor(c, tables[q := tables[q][sender := peer]], p, t)
    ensures KnownByContacts(c, tables[q := tables[q][sender := peer]], p, t)
  {
    assert forall m :: Reaches(c, sender, m) ==> m == sender;
  }

  lemma RegisterKeepsTablesPast(c: Config, s: State, x: Exchange, ps: set<NodeId>, t: nat)
    requires ValidConfig(c) && OwnAddresses(c) && WellFormed(c, s) && TaskInv(c, s, Merged(x))
    requires TablesPast(c, s.tables, ps, t)
    ensures TablesPast(c, Registered(c, s, x).tables, ps, t)
  {
    var q := c.route[x.toAddr];
    assert Reaches(c, x.peerKey, q);
    var peer := Seen(Lookup(s.tables[q], x.sender, c.gossipAddr[x.sender]));
    forall p | p in ps
      ensures PastFor(c, s.tables[q := s.tables[q][x.sender := peer]], p, t)
      ensures KnownByContacts(c, s.tables[q := s.tables[q][x.sender := peer]], p, t)
    {
      RegisterKeepsPast(c, s.tables, q, x.sender, peer, p, t);
    }
  }

  lemma RegisterKeepsHidden(c: Config, s: State, id: nat, ps: set<NodeId>, e: Entry, t: nat)
    requires ValidConfig(c) && OwnAddresses(c) && WellFormed(c, s) && TasksInv(c, s) && Hidden(c, s, ps, e, t)
    requires Has(c, s, id) && s.tasks[id].Merged?
    ensures Hidden(c, DoRegister(c, s, id), ps, e, t)
  {
    var x := s.tasks[id].x;
    assert TaskInv(c, s, s.tasks[id]);
    RegisterKeepsTablesPast(c, s, x, ps, t);
    PutKeepsHidden(c, Registered(c, s, x), id, Acking(x), ps, e, t);
  }

  lemma AckKeepsPast(c: Config, tables: Tables, x: Exchange, p: NodeId, t: nat)
    requires ValidConfig(c) && PastFor(c, tables, p, t) && KnownByContacts(c, tables, p, t) && OnEntry(tables, x)
    ensures var tables' := tables[x.sender := TableAcked(tables[x.sender], x.peerKey, x.toAddr, x.maxSent)];
            PastFor(c, tables', p, t) && KnownByContacts(c, tables', p, t)
  {
  }

  lemma AckKeepsHidden(c: Config, s: State, id: nat, ps: set<NodeId>, e: Entry, t: nat)
    requires ValidConfig(c) && WellFormed(c, s) && TasksInv(c, s) && Hidden(c, s, ps, e, t)
    requires Has(c, s, id) && s.tasks[id].Acking?
    ensures Hidden(c, DoAck(c, s, id), ps, e, t)
  {
    var x := s.tasks[id].x;
    assert TaskInv(c, s, s.tasks[id]);
    forall p | p in ps
      ensures PastFor(c, Recorded(c, s, x).tables, p, t) && KnownByContacts(c, Recorded(c, s, x).tables, p, t)
    {
      AckKeepsPast(c, s.tables, x, p, t);
    }
    DropKeepsHidden(c, Recorded(c, s, x), id, ps, e, t);
  }

  lemma TargetKeepsHidden(c: Config, s: State, id: nat, n: NodeId, k: string, ps: set<NodeId>, e: Entry, t: nat)
    requires ValidConfig(c) && WellFormed(c, s) && Hidden(c, s, ps, e, t) && n in c.nodes && k in s.tables[n]
    ensures Hidden(c, PutTask(s, id, Targeted(n, k, s.tables[n][k])), ps, e, t)
  {
    var snap := s.tables[n][k];
    if n !in ps && LeadsInto(c, k, ps) {
      var p := c.route[AddrOf(c, k)];
      assert PastFor(c, s.tables, p, t) && Reaches(c, k, p);
      PastNeverCarries(c, s.stores[n], s.written, n, snap.lastSyncTs, e, t);
    }
    PutKeepsHidden(c, s, id, Targeted(n, k, snap), ps, e, t);
  }

  lemma TaskMoveKeepsHidden(c: Config, s: State, step: Step, ps: set<NodeId>, e: Entry, t: nat)
    requires ValidConfig(c) && WellFormed(c, s) && Hidden(c, s, ps, e, t)
    requires Enabled(c, s, step) && (step.Target? || step.Stamp? || step.Lose?)
    ensures Hidden(c, Do(c, s, step), ps, e, t)
  {
    if step.Target? {
      TargetKeepsHidden(c, s, step.id, step.node, step.peerKey, ps, e, t);
    } else if step.Lose? {
      DropKeepsHidden(c, s, step.id, ps, e, t);
    } else {
      var entry := Entry(step.key, LwwValue(step.value, step.now, step.node));
      PutKeepsHidden(c, s, step.id, Writing(step.node, entry), ps, e, t);
    }
  }

  lemma MessageStepKeepsHidden(c: Config, s: State, step: Step, ps: set<NodeId>, e: Entry, t: nat)
    requires ValidConfig(c) && OwnAddresses(c) && WellFormed(c, s) && TasksInv(c, s) && Hidden(c, s, ps, e, t)
    requires Enabled(c, s, step) && (step.Deliver? || step.Register? || step.Ack?)
    ensures Hidden(c, Do(c, s, step), ps, e, t)
  {
    if step.Deliver? {
      DeliverKeepsHidden(c, s, step.id, ps, e, t);
    } else if step.Register? {
      RegisterKeepsHidden(c, s, step.id, ps, e, t);
    } else {
      AckKeepsHidden(c, s, step.id, ps, e, t);
    }
  }

  lemma StepKeepsHidden(c: Config, s: State, step: Step, ps: set<NodeId>, e: Entry, t: nat)
    requires ValidConfig(c) && OwnAddresses(c) && WellFormed(c, s) && Sourced(s.stores, s.written)
    requires TasksInv(c, s) && Hidden(c, s, ps, e, t) && Enabled(c, s, step) && !step.Apply?
    ensures Hidden(c, Do(c, s, step), ps, e, t)
  {
    if step.Build? {
      BuildKeepsHidden(c, s, step.id, ps, e, t);
    } else if step.Target? || step.Stamp? || step.Lose? {
      TaskMoveKeepsHidden(c, s, step, ps, e, t);
    } else {
      MessageStepKeepsHidden(c, s, step, ps, e, t);
    }
  }

  /** Never pushed: without further writes, no interleaving of messages whatsoever brings the
      entry, or one that makes up for it, to any of the nodes. */
  lemma {:induction false} NeverPushed(c: Config, run: seq<State>, ps: set<NodeId>, e: Entry, t: nat)
    requires ValidConfig(c) && OwnAddresses(c) && Run(c, NoWrites, run) && Inv(c, run[0])
    requires Hidden(c, run[0], ps, e, t)
    ensures Hidden(c, run[|run| - 1], ps, e, t)
    decreases |run|
  {
    if |run| > 1 {
      RunPrefix(c, NoWrites, run);
      var s := run[|run| - 2];
      NeverPushed(c, run[..|run| - 1], ps, e, t);
      RunKeepsInv(c, NoWrites, run[..|run| - 1]);
      var step :| Legal(c, NoWrites, s, step) && run[|run| - 1] == Do(c, s, step);
      StepKeepsHidden(c, s, step, ps, e, t);
    }
  }

  /** So no run without writes ever converges. */
  lemma HiddenNeverConverges(c: Config, s: State, ps: set<NodeId>, e: Entry, t: nat)
    requires ValidConfig(c) && OwnAddresses(c) && Inv(c, s) && Hidden(c, s, ps, e, t)
    requires ps * c.nodes != {} && e in s.written
    ensures !CanConverge(c, s)
  {
    var p :| p in ps * c.nodes;
    forall s' | QuietlyReaches(c, s, s')
      ensures !Converged(c, s')
    {
      StaysMissing(c, s, ps, e, t, s', p);
    }
  }

  lemma StaysMissing(c: Config, s: State, ps: set<NodeId>, e: Entry, t: nat, s': State, p: NodeId)
    requires ValidConfig(c) && OwnAddresses(c) && Inv(c, s) && Hidden(c, s, ps, e, t) && QuietlyReaches(c, s, s')
    requires p in ps
    ensures p in s'.stores && !Dominates(s'.stores[p], e) && s'.written == s.written
  {
    var run :| Run(c, NoWrites, run) && run[0] == s && run[|run| - 1] == s';
    NeverPushed(c, run, ps, e, t);
    RunWritten(c, run);
  }

  /** In particular not one that goes on until nothing that gets through is left to send. */
  lemma DrainedButNotConverged(c: Config, s: State, ps: set<NodeId>, e: Entry, t: nat, picks: seq<Pick>, s': State)
    requires ValidConfig(c) && OwnAddresses(c) && Inv(c, s) && Hidden(c, s, ps, e, t)
    requires ps * c.nodes != {} && e in s.written && ExchangesTo(c, s, picks, s') && Exhausted(c, s')
    ensures !Converged(c, s') && |picks| <= Measure(c, s)
  {
    HiddenNeverConverges(c, s, ps, e, t);
    ExchangesAreQuiet(c, s, picks, s');
    ExchangesAreBounded(c, s, picks, s');
  }
}
