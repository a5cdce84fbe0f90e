/** Exactly when a converged full mesh converges again after the next write.  A write that meets H
    spreads; one that does not can still be carried by targets that were picked before, with
    watermarks that are outdated by now. */
module NextWrite {
  import opened Crdt
  import opened StoreSpec
  import opened Cluster
  import opened Invariants
  import opened Convergence
  import opened WholeRuns
  import opened Draining
  import opened Oversized
  import opened Stranded
  import opened AfterWrite

  // --- What waiting targets can carry -----------------------------------------------------

  /** A waiting target of a node of the group, with a watermark below the write, that leads out of
      the group, and whose message, cut from a store that has taken the write in, would fit. */
  ghost predicate Usable(c: Config, m: Entries, e: Entry, tasks: map<nat, Task>, id: nat, group: set<NodeId>)
  {
    && id in tasks && tasks[id].Targeted? && tasks[id].node in group
    && tasks[id].snap.addr in c.route && c.route[tasks[id].snap.addr] !in group
    && tasks[id].snap.lastSyncTs < e.value.timestamp
    && Fits(c, tasks[id].node, DeltaSince(MergeEntry(m, e), tasks[id].snap.lastSyncTs))
  }

  ghost predicate Crossed(c: Config, m: Entries, e: Entry, tasks: map<nat, Task>, group: set<NodeId>)
  {
    exists id :: Usable(c, m, e, tasks, id, group)
  }

  /** Waiting targets can carry the write from these nodes to all: none of the groups around them
      is without one that leads out. */
  ghost predicate Relayed(c: Config, m: Entries, e: Entry, tasks: map<nat, Task>, from: set<NodeId>)
  {
    forall group :: from <= group < c.nodes ==> Crossed(c, m, e, tasks, group)
  }

  // --- When they cannot -------------------------------------------------------------------

  /** A store that had everything, and comes to hold a new write, holds just that more. */
  lemma OnlyTheWriteIsNew(m: Entries, written: set<Entry>, e: Entry, m': Entries)
    requires forall a :: a in written ==> Dominates(m, a)
    requires IsNew(written, e) && Grows(m, m') && ItemsOf(m') <= written + {e} && Dominates(m', e)
    ensures m' == MergeEntry(m, e) && m'[e.key] == e.value
  {
    assert Entry(e.key, m'[e.key]) in ItemsOf(m');
    assert m'[e.key] == e.value;
    if e.key in m {
      TagOrder(m[e.key], e.value, m[e.key]);
      MergeIsMaximum(m[e.key], e.value);
    }
    assert Grows(MergeEntry(m, e), m');
    AuthorStoreStays(m, written, e, m');
  }

  lemma UnusableNeverCarries(c: Config, m: Entries, written: set<Entry>, e: Entry, store: Entries,
                             n: NodeId, since: nat)
    requires (forall a :: a in written ==> Dominates(m, a)) && IsNew(written, e) && Grows(m, store)
    requires since < e.value.timestamp ==> !Fits(c, n, DeltaSince(MergeEntry(m, e), since))
    ensures NeverCarries(c, store, written + {e}, n, since, e)
  {
    forall m' | Grows(store, m') && ItemsOf(m') <= written + {e} && Dominates(DeltaSince(m', since), e)
      ensures !Fits(c, n, DeltaSince(m', since))
    {
      GrowsTransitive(m, store, m');
      OnlyTheWriteIsNew(m, written, e, m');
    }
  }

  /** Everybody holds `m` or `m` with the write, and no waiting target is usable. */
  lemma UncrossedCarriesNothing(c: Config, s: State, stores: Stores, m: Entries, e: Entry, group: set<NodeId>)
    requires ValidConfig(c) && TasksInv(c, s) && IsNew(s.written, e) && !Crossed(c, m, e, s.tasks, group)
    requires forall a :: a in s.written ==> Dominates(m, a)
    requires forall p :: p in stores ==> Grows(m, stores[p])
    ensures NoTargetCarries(c, stores, s.written + {e}, c.nodes - group, e, s.tasks)
  {
    forall id | id in s.tasks && s.tasks[id].Targeted?
      ensures TaskPast(c, stores, s.written + {e}, c.nodes - group, e, s.tasks[id])
    {
      var Targeted(n, k, snap) := s.tasks[id];
      assert TaskInv(c, s, s.tasks[id]);
      assert !Usable(c, m, e, s.tasks, id, group);
      if n in stores && n in group && LeadsInto(c, k, c.nodes - group) {
        UnusableNeverCarries(c, m, s.written, e, stores[n], n, snap.lastSyncTs);
      }
    }
  }

  // --- When they can ----------------------------------------------------------------------

  /** The group has taken the write in, and nobody else has. */
  ghost predicate HeldBy(c: Config, s: State, m: Entries, e: Entry, group: set<NodeId>)
  {
    WellFormed(c, s) && forall p :: p in c.nodes ==> s.stores[p] == if p in group then MergeEntry(m, e) else m
  }

  lemma JoinIsWrite(m: Entries, e: Entry, since: nat)
    requires Improves(m, e) && since < e.value.timestamp
    ensures e.key in DeltaSince(MergeEntry(m, e), since)
    ensures JoinMap(m, DeltaSince(MergeEntry(m, e), since)) == MergeEntry(m, e)
  {
    var d := DeltaSince(MergeEntry(m, e), since);
    MergeEntryEffect(m, e);
    forall k | k in m && k in d && k != e.key
      ensures Merge(m[k], d[k]) == m[k]
    {
      MergeIsMaximum(m[k], m[k]);
    }
    assert JoinMap(m, d).Keys == MergeEntry(m, e).Keys;
  }

  /** The target cuts its message from a store with the write, and it is sent. */
  lemma RelayBuild(c: Config, s: State, id: nat, m: Entries, e: Entry, group: set<NodeId>)
    requires ValidConfig(c) && HeldBy(c, s, m, e, group) && Improves(m, e) && Usable(c, m, e, s.tasks, id, group)
    requires TaskOk(c, s.tasks[id])
    ensures Enabled(c, s, Build(id)) && Do(c, s, Build(id)) == PutTask(s, id, Sent(RelayOf(m, e, s.tasks[id])))
  {
    JoinIsWrite(m, e, s.tasks[id].snap.lastSyncTs);
  }

  /** Its receiver takes the write in. */
  lemma RelayDeliver(c: Config, s: State, id: nat, x: Exchange, m: Entries, e: Entry, group: set<NodeId>, since: nat)
    requires ValidConfig(c) && HeldBy(c, s, m, e, group) && Improves(m, e) && since < e.value.timestamp
    requires id in s.tasks && x.sender in c.nodes && Deliverable(c, x) && c.route[x.toAddr] !in group
    requires x.delta == DeltaSince(MergeEntry(m, e), since)
    ensures HeldBy(c, PutTask(TakenIn(c, s, x), id, Merged(x)), m, e, group + {c.route[x.toAddr]})
  {
    JoinIsWrite(m, e, since);
  }

  ghost predicate TargetsOk(c: Config, tasks: map<nat, Task>)
  {
    forall id :: id in tasks && tasks[id].Targeted? ==> TaskOk(c, tasks[id])
  }

  /** The message that the target is going to send. */
  ghost function RelayOf(m: Entries, e: Entry, task: Task): Exchange
    requires task.Targeted?
  {
    Cut(MergeEntry(m, e), task.node, task.peerKey, task.snap)
  }

  lemma RelayReaches(c: Config, s: State, id: nat, m: Entries, e: Entry, group: set<NodeId>)
    requires ValidConfig(c) && HeldBy(c, s, m, e, group) && Improves(m, e) && Usable(c, m, e, s.tasks, id, group)
    requires TaskOk(c, s.tasks[id])
    ensures var x := RelayOf(m, e, s.tasks[id]);
            QuietlyReaches(c, s, PutTask(TakenIn(c, s, x), id, Merged(x)))
  {
    var x := RelayOf(m, e, s.tasks[id]);
    RelayBuild(c, s, id, m, e, group);
    StepReaches(c, s, Build(id));
    DeliverIsTakenIn(c, s, id, x);
    StepReaches(c, PutTask(s, id, Sent(x)), Deliver(id));
    QuietlyReachesTransitive(c, s, PutTask(s, id, Sent(x)), PutTask(TakenIn(c, s, x), id, Merged(x)));
  }

  lemma RelayTasks(c: Config, tasks: map<nat, Task>, id: nat, x: Exchange)
    requires TargetsOk(c, tasks)
    ensures TargetsOk(c, tasks[id := Merged(x)])
    ensures forall j :: j in tasks && j != id ==> j in tasks[id := Merged(x)] && tasks[id := Merged(x)][j] == tasks[j]
  {
  }

  /** The group with the node that the target leads to. */
  ghost function Widened(c: Config, tasks: map<nat, Task>, id: nat, group: set<NodeId>): set<NodeId>
    requires id in tasks && tasks[id].Targeted? && tasks[id].snap.addr in c.route
  {
    group + {c.route[tasks[id].snap.addr]}
  }

  lemma RelayStep(c: Config, s: State, id: nat, m: Entries, e: Entry, group: set<NodeId>) returns (s': State)
    requires ValidConfig(c) && HeldBy(c, s, m, e, group) && Improves(m, e) && Usable(c, m, e, s.tasks, id, group)
    requires TaskOk(c, s.tasks[id])
    ensures QuietlyReaches(c, s, s') && HeldBy(c, s', m, e, Widened(c, s.tasks, id, group))
    ensures s'.tasks == s.tasks[id := Merged(RelayOf(m, e, s.tasks[id]))]
  {
    var x := RelayOf(m, e, s.tasks[id]);
    s' := PutTask(TakenIn(c, s, x), id, Merged(x));
    RelayReaches(c, s, id, m, e, group);
    RelayDeliver(c, s, id, x, m, e, group, s.tasks[id].snap.lastSyncTs);
  }

  lemma {:induction false} RelayAll(c: Config, s: State, m: Entries, e: Entry, group: set<NodeId>) returns (s': State)
    requires ValidConfig(c) && HeldBy(c, s, m, e, group) && Improves(m, e) && group <= c.nodes
    requires Relayed(c, m, e, s.tasks, group) && TargetsOk(c, s.tasks)
    ensures QuietlyReaches(c, s, s') && HeldBy(c, s', m, e, c.nodes)
    decreases c.nodes - group
  {
    if group == c.nodes {
      s' := s;
      QuietlyReachesSelf(c, s);
    } else {
      var next, wider := RelayFirst(c, s, m, e, group);
      s' := RelayAll(c, next, m, e, wider);
      QuietlyReachesTransitive(c, s, next, s');
    }
  }

  lemma PickTarget(c: Config, m: Entries, e: Entry, tasks: map<nat, Task>, group: set<NodeId>) returns (id: nat)
    requires ValidConfig(c) && Relayed(c, m, e, tasks, group) && TargetsOk(c, tasks) && group < c.nodes
    ensures Usable(c, m, e, tasks, id, group) && TaskOk(c, tasks[id])
    ensures group < Widened(c, tasks, id, group) <= c.nodes
    ensures var tasks' := tasks[id := Merged(RelayOf(m, e, tasks[id]))];
            Relayed(c, m, e, tasks', Widened(c, tasks, id, group)) && TargetsOk(c, tasks')
  {
    assert Crossed(c, m, e, tasks, group);
    id :| Usable(c, m, e, tasks, id, group);
    var x := RelayOf(m, e, tasks[id]);
    RelayTasks(c, tasks, id, x);
    RelayedStays(c, m, e, tasks, tasks[id := Merged(x)], group, id);
  }

  lemma RelayFirst(c: Config, s: State, m: Entries, e: Entry, group: set<NodeId>)
      returns (next: State, wider: set<NodeId>)
    requires ValidConfig(c) && HeldBy(c, s, m, e, group) && Improves(m, e) && group < c.nodes
    requires Relayed(c, m, e, s.tasks, group) && TargetsOk(c, s.tasks)
    ensures QuietlyReaches(c, s, next) && HeldBy(c, next, m, e, wider) && group < wider <= c.nodes
    ensures Relayed(c, m, e, next.tasks, wider) && TargetsOk(c, next.tasks)
  {
    var id := PickTarget(c, m, e, s.tasks, group);
    next := RelayStep(c, s, id, m, e, group);
    wider := Widened(c, s.tasks, id, group);
  }

  /** A target that leads into a group no longer leads out of it, so the others are enough. */
  lemma RelayedStays(c: Config, m: Entries, e: Entry, tasks: map<nat, Task>, tasks': map<nat, Task>,
                     group: set<NodeId>, id: nat)
    requires Relayed(c, m, e, tasks, group) && Usable(c, m, e, tasks, id, group)
    requires forall j :: j in tasks && j != id ==> j in tasks' && tasks'[j] == tasks[j]
    ensures Relayed(c, m, e, tasks', Widened(c, tasks, id, group))
  {
    var wider := Widened(c, tasks, id, group);
    forall larger | wider <= larger < c.nodes
      ensures Crossed(c, m, e, tasks', larger)
    {
      assert Crossed(c, m, e, tasks, larger);
      var j :| Usable(c, m, e, tasks, j, larger);
      assert Usable(c, m, e, tasks', j, larger);
    }
  }

  // --- The exact condition ------------------------------------------------------------------

  /** What it takes for a write to spread, in terms of the author's store, the message bound and
      the targets that wait: the write is lost at once to what the store holds; or its stamp meets
      H and a message with it alone fits; or waiting targets carry it from its node to all, as they
      trivially do when the node is alone. */
  ghost predicate Spreads(c: Config, s: State, n: NodeId, e: Entry)
    requires n in s.stores
  {
    || Dominates(s.stores[n], e)
    || (MaxTimestamp(s.stores[n]) < e.value.timestamp && Fits(c, n, map[e.key := e.value]))
    || Relayed(c, s.stores[n], e, s.tasks, {n})
  }

  lemma LostWriteStaysConverged(c: Config, s: State, id: nat)
    requires ValidConfig(c) && WellFormed(c, s) && Converged(c, s) && Has(c, s, id) && s.tasks[id].Writing?
    requires Dominates(s.stores[s.tasks[id].node], s.tasks[id].entry)
    ensures CanConverge(c, DoApply(c, s, id))
  {
    var n, e, s' := s.tasks[id].node, s.tasks[id].entry, DoApply(c, s, id);
    MergeEntryEffect(s.stores[n], e);
    assert s'.stores == s.stores && s'.written == s.written;
    QuietlyReachesSelf(c, s');
    assert Converged(c, s');
  }

  lemma WriteIsHeldByAuthor(c: Config, s: State, id: nat)
    requires ValidConfig(c) && WellFormed(c, s) && Converged(c, s) && Has(c, s, id) && s.tasks[id].Writing?
    ensures var n := s.tasks[id].node;
            HeldBy(c, DoApply(c, s, id), s.stores[n], s.tasks[id].entry, {n})
  {
  }

  lemma RelayedAfterWrite(c: Config, m: Entries, e: Entry, tasks: map<nat, Task>, id: nat, from: set<NodeId>)
    requires Relayed(c, m, e, tasks, from) && id in tasks && !tasks[id].Targeted?
    ensures Relayed(c, m, e, tasks - {id}, from)
  {
    forall group | from <= group < c.nodes
      ensures Crossed(c, m, e, tasks - {id}, group)
    {
      assert Crossed(c, m, e, tasks, group);
      var j :| Usable(c, m, e, tasks, j, group);
      assert Usable(c, m, e, tasks - {id}, j, group);
    }
  }

  /** All hold everything, once all hold what the author held and the write. */
  lemma HeldByAllIsComplete(c: Config, s: State, m: Entries, e: Entry, written: set<Entry>)
    requires ValidConfig(c) && HeldBy(c, s, m, e, c.nodes) && s.written <= written + {e}
    requires forall a :: a in written ==> Dominates(m, a)
    ensures Complete(c, s)
  {
    MergeEntryEffect(m, e);
    forall n, a | n in c.nodes && a in s.written
      ensures n in s.stores && Dominates(s.stores[n], a)
    {
      if a in written {
        DominatesGrows(m, MergeEntry(m, e), a);
      }
    }
  }

  lemma RelayedWriteCanConverge(c: Config, s: State, id: nat)
    requires ValidConfig(c) && Inv(c, s) && Converged(c, s) && Has(c, s, id) && s.tasks[id].Writing?
    requires Improves(s.stores[s.tasks[id].node], s.tasks[id].entry)
    requires Relayed(c, s.stores[s.tasks[id].node], s.tasks[id].entry, s.tasks, {s.tasks[id].node})
    ensures CanConverge(c, DoApply(c, s, id))
  {
    var n, e, mid := s.tasks[id].node, s.tasks[id].entry, DoApply(c, s, id);
    WriteIsHeldByAuthor(c, s, id);
    RelayedAfterWrite(c, s.stores[n], e, s.tasks, id, {n});
    ApplyFrame(c, s, id);
    ApplyKeepsInv(c, s, id);
    assert TargetsOk(c, mid.tasks);
    var end := RelayAll(c, mid, s.stores[n], e, {n});
    QuietlyReachedFacts(c, mid, end);
    HeldByAllIsComplete(c, end, s.stores[n], e, s.written);
    CompleteIsConverged(c, end);
  }

  lemma StoresAfterWriteGrow(c: Config, s: State, id: nat)
    requires ValidConfig(c) && WellFormed(c, s) && Converged(c, s) && Has(c, s, id) && s.tasks[id].Writing?
    ensures forall p :: p in DoApply(c, s, id).stores ==>
              Grows(s.stores[s.tasks[id].node], DoApply(c, s, id).stores[p])
  {
    MergeEntryEffect(s.stores[s.tasks[id].node], s.tasks[id].entry);
  }

  lemma UncrossedIsHidden(c: Config, s: State, id: nat, group: set<NodeId>, t: nat)
    requires ValidConfig(c) && WellFormed(c, s) && Sourced(s.stores, s.written) && TasksInv(c, s)
    requires Converged(c, s) && Has(c, s, id) && s.tasks[id].Writing? && s.tasks[id].node in group
    requires Improves(s.stores[s.tasks[id].node], s.tasks[id].entry) && s.tasks[id].entry.value.timestamp <= t
    requires !Crossed(c, s.stores[s.tasks[id].node], s.tasks[id].entry, s.tasks, group)
    requires TablesPast(c, s.tables, c.nodes - group, t)
    ensures Hidden(c, DoApply(c, s, id), c.nodes - group, s.tasks[id].entry, t)
  {
    var n, e := s.tasks[id].node, s.tasks[id].entry;
    DominatedIsOld(s.stores[n], s.written, e);
    StoresAfterWriteGrow(c, s, id);
    UncrossedCarriesNothing(c, s, DoApply(c, s, id).stores, s.stores[n], e, group);
    assert DoApply(c, s, id).written == s.written + {e};
    LateWriteIsHidden(c, s, id, c.nodes - group, t);
  }

  lemma AtCommonMaximum(c: Config, s: State, n: NodeId)
    requires Converged(c, s) && n in c.nodes
    ensures forall m :: m in c.nodes ==> MaxTimestamp(s.stores[n]) <= MaxTimestamp(s.stores[m])
  {
  }

  lemma RestingGroupIsPast(c: Config, s: State, n: NodeId, group: set<NodeId>)
    requires ValidConfig(c) && AtRest(c, s) && Converged(c, s) && n in c.nodes
    ensures TablesPast(c, s.tables, c.nodes - group, MaxTimestamp(s.stores[n]))
  {
    AtCommonMaximum(c, s, n);
    RestingTablesArePast(c, s, c.nodes - group, MaxTimestamp(s.stores[n]));
  }

  lemma PastWriteNeverConverges(c: Config, s: State, id: nat, group: set<NodeId>, t: nat)
    requires ValidConfig(c) && OwnAddresses(c) && Inv(c, s) && Converged(c, s) && Has(c, s, id)
    requires s.tasks[id].Writing? && s.tasks[id].node in group && group < c.nodes
    requires Improves(s.stores[s.tasks[id].node], s.tasks[id].entry) && s.tasks[id].entry.value.timestamp <= t
    requires TablesPast(c, s.tables, c.nodes - group, t)
    requires !Crossed(c, s.stores[s.tasks[id].node], s.tasks[id].entry, s.tasks, group)
    ensures !CanConverge(c, DoApply(c, s, id))
  {
    UncrossedIsHidden(c, s, id, group, t);
    HiddenAfterWrite(c, s, id, c.nodes - group, t);
  }

  /** A write that does not meet H, and that no waiting target carries out of some group, never
      gets out of it. */
  lemma LateWriteNeverConverges(c: Config, s: State, id: nat, group: set<NodeId>)
    requires ValidConfig(c) && OwnAddresses(c) && AtRest(c, s) && Converged(c, s) && Has(c, s, id)
    requires s.tasks[id].Writing? && s.tasks[id].node in group && group < c.nodes
    requires Improves(s.stores[s.tasks[id].node], s.tasks[id].entry)
    requires !MeetsH(s, s.tasks[id].node, s.tasks[id].entry)
    requires !Crossed(c, s.stores[s.tasks[id].node], s.tasks[id].entry, s.tasks, group)
    ensures !CanConverge(c, DoApply(c, s, id))
  {
    var n := s.tasks[id].node;
    RestingGroupIsPast(c, s, n, group);
    PastWriteNeverConverges(c, s, id, group, MaxTimestamp(s.stores[n]));
  }

  lemma HiddenAfterWrite(c: Config, s: State, id: nat, ps: set<NodeId>, t: nat)
    requires ValidConfig(c) && OwnAddresses(c) && Inv(c, s) && Has(c, s, id) && s.tasks[id].Writing?
    requires Improves(s.stores[s.tasks[id].node], s.tasks[id].entry) && ps * c.nodes != {}
    requires Hidden(c, DoApply(c, s, id), ps, s.tasks[id].entry, t)
    ensures !CanConverge(c, DoApply(c, s, id))
  {
    ApplyKeepsInv(c, s, id);
    HiddenNeverConverges(c, DoApply(c, s, id), ps, s.tasks[id].entry, t);
  }

  lemma BigWriteNeverConverges(c: Config, s: State, id: nat, p: NodeId)
    requires ValidConfig(c) && Inv(c, s) && Complete(c, s) && Has(c, s, id)
    requires s.tasks[id].Writing? && p in c.nodes && p != s.tasks[id].node
    requires Improves(s.stores[s.tasks[id].node], s.tasks[id].entry)
    requires !Fits(c, s.tasks[id].node, map[s.tasks[id].entry.key := s.tasks[id].entry.value])
    ensures !CanConverge(c, DoApply(c, s, id))
  {
    var n, e := s.tasks[id].node, s.tasks[id].entry;
    DominatedIsOld(s.stores[n], s.written, e);
    NewWriteIsLatest(c, s, id);
    NewWriteIsConfined(c, s, id);
    ConfinedNeverConverges(c, DoApply(c, s, id), e, p);
  }

  lemma NewWriteIsLatest(c: Config, s: State, id: nat)
    requires ValidConfig(c) && WellFormed(c, s) && Has(c, s, id) && s.tasks[id].Writing?
    requires IsNew(s.written, s.tasks[id].entry) && Improves(s.stores[s.tasks[id].node], s.tasks[id].entry)
    ensures s.tasks[id].entry in DoApply(c, s, id).written
    ensures IsLatest(DoApply(c, s, id).written, s.tasks[id].entry)
  {
  }

  lemma NewWriteIsConfined(c: Config, s: State, id: nat)
    requires ValidConfig(c) && WellFormed(c, s) && Sourced(s.stores, s.written) && TasksInv(c, s)
    requires Has(c, s, id) && s.tasks[id].Writing? && IsNew(s.written, s.tasks[id].entry)
    ensures Confined(DoApply(c, s, id).stores, DoApply(c, s, id).tasks, s.tasks[id].entry)
  {
    var n, e := s.tasks[id].node, s.tasks[id].entry;
    NewIsLacking(s.stores, s.written, n, e);
    UnwrittenIsConfined(c, s, e);
    ApplyKeepsConfined(c, s, id, e);
  }

  lemma UncrossedGroup(c: Config, m: Entries, e: Entry, tasks: map<nat, Task>, n: NodeId)
      returns (group: set<NodeId>)
    requires !Relayed(c, m, e, tasks, {n})
    ensures n in group && group < c.nodes && !Crossed(c, m, e, tasks, group)
  {
    group :| {n} <= group < c.nodes && !Crossed(c, m, e, tasks, group);
  }

  lemma Outside(nodes: set<NodeId>, group: set<NodeId>) returns (p: NodeId)
    requires group < nodes
    ensures p in nodes && p !in group
  {
    assert nodes != group;
    p :| p in nodes && p !in group;
  }

  lemma BigWriteInGroupNeverConverges(c: Config, s: State, id: nat, group: set<NodeId>)
    requires ValidConfig(c) && Inv(c, s) && Converged(c, s) && Has(c, s, id)
    requires s.tasks[id].Writing? && s.tasks[id].node in group && group < c.nodes
    requires Improves(s.stores[s.tasks[id].node], s.tasks[id].entry)
    requires !Fits(c, s.tasks[id].node, map[s.tasks[id].entry.key := s.tasks[id].entry.value])
    ensures !CanConverge(c, DoApply(c, s, id))
  {
    var p := Outside(c.nodes, group);
    CompleteIsConverged(c, s);
    BigWriteNeverConverges(c, s, id, p);
  }

  /** All nodes converge: from a converged full mesh with nothing to send, after the next write, if
      and only if the write spreads.  Whatever other writes, targets, messages and acknowledgements
      are under way, and whichever steps follow, a write that does not spread leaves the stores
      unequal for as long as there is no further write. */
  lemma ConvergesAfterWriteIff(c: Config, s: State, id: nat)
    requires ValidConfig(c) && OwnAddresses(c)
    requires AtRest(c, s) && Converged(c, s) && Has(c, s, id) && s.tasks[id].Writing?
    ensures CanConverge(c, DoApply(c, s, id)) <==> Spreads(c, s, s.tasks[id].node, s.tasks[id].entry)
  {
    var n, e := s.tasks[id].node, s.tasks[id].entry;
    MergeEntryEffect(s.stores[n], e);
    if Dominates(s.stores[n], e) {
      LostWriteStaysConverged(c, s, id);
    } else if MeetsH(s, n, e) && Fits(c, n, map[e.key := e.value]) {
      GoodWriteCanConverge(c, s, id);
    } else if Relayed(c, s.stores[n], e, s.tasks, {n}) {
      RelayedWriteCanConverge(c, s, id);
    } else {
      var group := UncrossedGroup(c, s.stores[n], e, s.tasks, n);
      if MeetsH(s, n, e) {
        BigWriteInGroupNeverConverges(c, s, id, group);
      } else {
        LateWriteNeverConverges(c, s, id, group);
      }
    }
  }
}
