/** Quiescent convergence: under the clock hypothesis H and a full mesh, a cluster with
    nothing left to send has converged. */
module Convergence {
  import opened Crdt
  import opened StoreSpec
  import opened Cluster
  import opened Invariants
  import opened Guarantees
  import opened Watermark

  /** Every node has an entry that reaches every other node. */
  ghost predicate FullMesh(c: Config, s: State)
    requires ValidConfig(c)
  {
    forall n, p :: n in c.nodes && p in c.nodes && n != p ==> n in s.tables && Knows(c, s.tables[n], p)
  }

  ghost predicate EmptyDelta(s: State, n: NodeId, key: string)
  {
    n in s.stores && n in s.tables && key in s.tables[n] &&
    DeltaSince(s.stores[n], s.tables[n][key].lastSyncTs) == map[]
  }

  /** No node has anything left to send on any entry whose address some node answers at.
      Entries with a dead address may wait for ever. */
  ghost predicate Drained(c: Config, s: State)
  {
    forall n, k :: n in s.tables && k in s.tables[n] && s.tables[n][k].addr in c.route ==> EmptyDelta(s, n, k)
  }

  /** For every ordered pair of nodes, some entry that reaches the second has nothing left. */
  ghost predicate Settled(c: Config, s: State)
    requires ValidConfig(c)
  {
    forall n, p :: n in c.nodes && p in c.nodes && n != p ==> SettledPair(c, s, n, p)
  }

  ghost predicate SettledPair(c: Config, s: State, n: NodeId, p: NodeId)
    requires ValidConfig(c)
  {
    exists k :: Reaches(c, k, p) && EmptyDelta(s, n, k)
  }

  lemma DrainedMeshIsSettled(c: Config, s: State)
    requires ValidConfig(c) && FullMesh(c, s) && TableInv(c, s.stores, s.tables) && Drained(c, s)
    ensures Settled(c, s)
  {
    forall n, p | n in c.nodes && p in c.nodes && n != p
      ensures SettledPair(c, s, n, p)
    {
      var k :| k in s.tables[n] && Reaches(c, k, p);
      assert Shaped(c, s.tables[n]);
      assert EmptyDelta(s, n, k);
    }
  }

  /** Every store dominates every write that took effect anywhere. */
  ghost predicate Complete(c: Config, s: State)
  {
    forall n, e :: n in c.nodes && e in s.written ==> n in s.stores && Dominates(s.stores[n], e)
  }

  /** All stores are equal, to the per-key maximum of all writes. */
  ghost predicate Converged(c: Config, s: State)
  {
    && (forall n :: n in c.nodes ==> n in s.stores && IsJoin(s.stores[n], s.written))
    && (forall n, m :: n in c.nodes && m in c.nodes ==> s.stores[n] == s.stores[m])
  }

  lemma CompleteIsConverged(c: Config, s: State)
    requires ValidConfig(c) && Inv(c, s)
    ensures Complete(c, s) <==> Converged(c, s)
  {
    if Complete(c, s) {
      forall n | n in c.nodes
        ensures IsJoin(s.stores[n], s.written)
      {
        assert ItemsOf(s.stores[n]) <= s.written;
      }
      forall n, m | n in c.nodes && m in c.nodes
        ensures s.stores[n] == s.stores[m]
      {
        MutualDominationIsEquality(s.stores[n], s.stores[m], s.written);
      }
    }
  }

  /** A settled pair: the second node dominates every write of the first. */
  lemma SettledPairCovers(c: Config, s: State, n: NodeId, p: NodeId, e: Entry)
    requires ValidConfig(c) && Inv(c, s) && Sound(c, s)
    requires n in c.nodes && p in c.nodes && SettledPair(c, s, n, p)
    requires e in s.written && e.value.nodeId == n
    ensures Dominates(s.stores[p], e)
  {
    var k :| Reaches(c, k, p) && EmptyDelta(s, n, k);
    var t := s.tables[n][k].lastSyncTs;
    DeltaMaximumIsStoreMaximum(s.stores[n], t);
    assert Dominates(s.stores[n], e);
    assert e.value.timestamp <= s.stores[n][e.key].timestamp <= t;
    assert Covered(s.stores, s.written, n, t, p);
  }

  lemma SoundSettledConverges(c: Config, s: State)
    requires ValidConfig(c) && Inv(c, s) && Sound(c, s) && Settled(c, s)
    ensures Converged(c, s)
  {
    forall n, e | n in c.nodes && e in s.written
      ensures Dominates(s.stores[n], e)
    {
      if e.value.nodeId != n {
        SettledPairCovers(c, s, e.value.nodeId, n, e);
      }
    }
    CompleteIsConverged(c, s);
  }

  /** Quiescent convergence: under H, when every pair of nodes is settled, all stores equal
      the last-write-wins maximum of all writes ever made, whatever is still in flight. */
  lemma QuiescentConvergence(c: Config, s: State)
    requires ValidConfig(c) && Reachable(c, GoodClocks, s) && Settled(c, s)
    ensures Converged(c, s)
  {
    ReachableSound(c, s);
    SoundSettledConverges(c, s);
  }

  // --- Converged states stay as they are -----------------------------------------------

  lemma DeliverKeepsComplete(c: Config, s: State, id: nat)
    requires ValidConfig(c) && WellFormed(c, s) && TasksInv(c, s) && Complete(c, s) && Has(c, s, id)
    requires s.tasks[id].Sent? && s.tasks[id].x.toAddr in c.route
    ensures DoDeliver(c, s, id).stores == s.stores
  {
    var x := s.tasks[id].x;
    var p := c.route[x.toAddr];
    assert TaskInv(c, s, s.tasks[id]);
    JoinMapUnchangedIff(s.stores[p], x.delta);
    assert s.stores[p := s.stores[p]] == s.stores;
  }

  lemma QuietStepKeepsComplete(c: Config, s: State, s': State)
    requires ValidConfig(c) && Inv(c, s) && Complete(c, s) && Next(c, NoWrites, s, s')
    ensures s'.stores == s.stores && s'.written == s.written
  {
    var step :| Legal(c, NoWrites, s, step) && s' == Do(c, s, step);
    QuietStepFrame(c, s, step);
    if step.Deliver? {
      DeliverKeepsComplete(c, s, step.id);
    }
  }

  /** Once converged, the stores do not change until the next write gets the lock, however
      many old messages still arrive.  This needs no clock hypothesis. */
  lemma {:induction false} ConvergedUntilNextWrite(c: Config, run: seq<State>)
    requires ValidConfig(c) && Run(c, NoWrites, run) && Inv(c, run[0]) && Converged(c, run[0])
    ensures run[|run| - 1].stores == run[0].stores
    ensures Converged(c, run[|run| - 1])
    decreases |run|
  {
    if |run| > 1 {
      RunPrefix(c, NoWrites, run);
      var s, s' := run[|run| - 2], run[|run| - 1];
      ConvergedUntilNextWrite(c, run[..|run| - 1]);
      RunKeepsInv(c, NoWrites, run[..|run| - 1]);
      CompleteIsConverged(c, s);
      QuietStepKeepsComplete(c, s, s');
      RunKeepsInv(c, NoWrites, run);
      CompleteIsConverged(c, s');
    }
  }

  /** The two together, as a maintainer would look for them: full mesh, good clocks, nothing
      left to send.  All stores are the maximum of all writes, and stay so until the next one. */
  lemma DrainedMeshConverges(c: Config, run: seq<State>)
    requires ValidConfig(c) && Run(c, NoWrites, run) && Reachable(c, GoodClocks, run[0])
    requires FullMesh(c, run[0]) && Drained(c, run[0])
    ensures Converged(c, run[0]) && Converged(c, run[|run| - 1])
    ensures run[|run| - 1].stores == run[0].stores
  {
    ReachableInv(c, GoodClocks, run[0]);
    DrainedMeshIsSettled(c, run[0]);
    QuiescentConvergence(c, run[0]);
    ConvergedUntilNextWrite(c, run);
  }
}
