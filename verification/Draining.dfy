/** Exchanges on entries with something to send: each advances its watermark, only so many can
    follow one another, and when no more is possible the cluster has converged, unless some
    message is too big for its receiver to read. */
module Draining {
  import opened Crdt
  import opened StoreSpec
  import opened Cluster
  import opened Invariants
  import opened Guarantees
  import opened Watermark
  import opened Convergence
  import opened Progress
  import opened WholeRuns

  /** The entry has something to send, and the message would get through. */
  ghost predicate CanSend(c: Config, s: State, n: NodeId, k: string)
  {
    && n in c.nodes && n in s.stores && n in s.tables && k in s.tables[n]
    && !EmptyDelta(s, n, k) && Deliverable(c, CutNow(s, n, k))
  }

  /** The entry has something to send that its receiver will refuse to read. */
  ghost predicate Blocked(c: Config, s: State, n: NodeId, k: string)
  {
    && n in s.stores && n in s.tables && k in s.tables[n] && s.tables[n][k].addr in c.route
    && !EmptyDelta(s, n, k) && !Deliverable(c, CutNow(s, n, k))
  }

  ghost predicate SomeBlocked(c: Config, s: State)
  {
    exists n, k :: Blocked(c, s, n, k)
  }

  ghost predicate Exhausted(c: Config, s: State)
  {
    forall n, k :: !CanSend(c, s, n, k)
  }

  lemma CompletedAdvances(c: Config, s: State, n: NodeId, k: string)
    requires ValidConfig(c) && WellFormed(c, s) && n in c.nodes && k in s.tables[n]
    requires !EmptyDelta(s, n, k) && Deliverable(c, CutNow(s, n, k))
    ensures var s' := Completed(c, s, CutNow(s, n, k));
            Advanced(s, s', n, k) && s'.tables[n][k].lastSyncTs == MaxTimestamp(s.stores[n])
  {
    var x := CutNow(s, n, k);
    DeltaMaximumIsStoreMaximum(s.stores[n], s.tables[n][k].lastSyncTs);
    TablesAfterWatermark(c, s.tables, n, k, c.route[x.toAddr], x.maxSent);
  }

  /** Every uninterrupted exchange on an entry with something to send, under whichever task id,
      moves the entry's watermark up to the largest timestamp of the sender's store. */
  lemma ExchangeAdvances(c: Config, s: State, id: nat, n: NodeId, k: string, s': State)
    requires ValidConfig(c) && WellFormed(c, s) && id !in s.tasks && n in c.nodes && k in s.tables[n]
    requires !EmptyDelta(s, n, k) && RunsTo(c, s, ExchangeSteps(id, n, k), s')
    ensures Advanced(s, s', n, k) && s'.tables[n][k].lastSyncTs == MaxTimestamp(s.stores[n])
  {
    ExchangeIff(c, s, id, n, k, s');
    CompletedAdvances(c, s, n, k);
  }

  // --- Sequences of exchanges -------------------------------------------------------------

  /** A table entry: its node and its key. */
  type Pick = (NodeId, string)

  /** Whole exchanges on these entries, each of which has something to send when its turn
      comes, lead from the one state to the other. */
  ghost predicate ExchangesTo(c: Config, s: State, picks: seq<Pick>, s': State)
    requires ValidConfig(c)
    decreases |picks|
  {
    if |picks| == 0 then s' == s
    else
      && WellFormed(c, s) && CanSend(c, s, picks[0].0, picks[0].1)
      && ExchangesTo(c, Completed(c, s, CutNow(s, picks[0].0, picks[0].1)), picks[1..], s')
  }

  lemma {:induction false} RunWritten(c: Config, run: seq<State>)
    requires ValidConfig(c) && Run(c, NoWrites, run)
    ensures run[|run| - 1].written == run[0].written
    decreases |run|
  {
    if |run| > 1 {
      RunPrefix(c, NoWrites, run);
      RunWritten(c, run[..|run| - 1]);
      var s := run[|run| - 2];
      var step :| Legal(c, NoWrites, s, step) && run[|run| - 1] == Do(c, s, step);
      QuietStepFrame(c, s, step);
    }
  }

  /** What holds at the end of a run without writes. */
  lemma QuietlyReachedFacts(c: Config, s: State, s': State)
    requires ValidConfig(c) && Inv(c, s) && QuietlyReaches(c, s, s')
    ensures Inv(c, s') && StateGrows(s, s') && s'.written == s.written
  {
    var run :| Run(c, NoWrites, run) && run[0] == s && run[|run| - 1] == s';
    RunKeepsInv(c, NoWrites, run);
    RunGrows(c, NoWrites, run);
    RunWritten(c, run);
  }

  lemma CompletedReached(c: Config, s: State, n: NodeId, k: string)
    requires ValidConfig(c) && WellFormed(c, s) && CanSend(c, s, n, k)
    ensures QuietlyReaches(c, s, Completed(c, s, CutNow(s, n, k)))
  {
    var id := FreshId(s.tasks.Keys);
    var s' := Completed(c, s, CutNow(s, n, k));
    ExchangeIff(c, s, id, n, k, s');
    ExchangeWritesNothing(id, n, k);
    var run := StepsMakeRun(c, s, ExchangeSteps(id, n, k), s');
  }

  lemma FirstExchange(c: Config, s: State, picks: seq<Pick>, s': State) returns (next: State)
    requires ValidConfig(c) && ExchangesTo(c, s, picks, s') && |picks| > 0
    ensures WellFormed(c, s) && WellFormed(c, next) && QuietlyReaches(c, s, next)
    ensures Advanced(s, next, picks[0].0, picks[0].1) && ExchangesTo(c, next, picks[1..], s')
  {
    var (n, k) := picks[0];
    next := Completed(c, s, CutNow(s, n, k));
    CompletedAdvances(c, s, n, k);
    CompletedReached(c, s, n, k);
  }

  lemma AdvanceLowersQuietly(c: Config, s: State, next: State, n: NodeId, k: string)
    requires ValidConfig(c) && Inv(c, s) && QuietlyReaches(c, s, next) && Advanced(s, next, n, k)
    ensures Inv(c, next) && Measure(c, next) < Measure(c, s)
  {
    QuietlyReachedFacts(c, s, next);
    assert Shaped(c, s.tables[n]);
    AdvanceLowersMeasure(c, s, next, n, k);
  }

  lemma {:induction false} ExchangesAreQuiet(c: Config, s: State, picks: seq<Pick>, s': State)
    requires ValidConfig(c) && WellFormed(c, s) && ExchangesTo(c, s, picks, s')
    ensures QuietlyReaches(c, s, s')
    decreases |picks|
  {
    if |picks| == 0 {
      QuietlyReachesSelf(c, s);
    } else {
      var next := FirstExchange(c, s, picks, s');
      ExchangesAreQuiet(c, next, picks[1..], s');
      QuietlyReachesTransitive(c, s, next, s');
    }
  }

  /** There are never more such exchanges than the measure of the first state, whichever entries
      are picked and in whatever order. */
  lemma {:induction false} ExchangesAreBounded(c: Config, s: State, picks: seq<Pick>, s': State)
    requires ValidConfig(c) && Inv(c, s) && ExchangesTo(c, s, picks, s')
    ensures Inv(c, s') && |picks| + Measure(c, s') <= Measure(c, s)
    decreases |picks|
  {
    if |picks| > 0 {
      var next := FirstExchange(c, s, picks, s');
      AdvanceLowersQuietly(c, s, next, picks[0].0, picks[0].1);
      ExchangesAreBounded(c, next, picks[1..], s');
    }
  }

  /** From any state, they can go on until none is possible. */
  lemma {:induction false} DrainWithinMeasure(c: Config, s: State) returns (picks: seq<Pick>, s': State)
    requires ValidConfig(c) && Inv(c, s)
    ensures ExchangesTo(c, s, picks, s') && Exhausted(c, s') && |picks| <= Measure(c, s)
    decreases Measure(c, s)
  {
    if Exhausted(c, s) {
      picks, s' := [], s;
    } else {
      var n, k :| CanSend(c, s, n, k);
      var next := Completed(c, s, CutNow(s, n, k));
      CompletedAdvances(c, s, n, k);
      CompletedReached(c, s, n, k);
      AdvanceLowersQuietly(c, s, next, n, k);
      var rest;
      rest, s' := DrainWithinMeasure(c, next);
      picks := [(n, k)] + rest;
      assert picks[1..] == rest;
    }
  }

  // --- Bounded convergence ----------------------------------------------------------------

  /** Some run without writes leads to convergence. */
  ghost predicate CanConverge(c: Config, s: State)
    requires ValidConfig(c)
  {
    exists s' :: QuietlyReaches(c, s, s') && Converged(c, s')
  }

  lemma MeshStays(c: Config, s: State, s': State)
    requires ValidConfig(c) && WellFormed(c, s) && WellFormed(c, s') && FullMesh(c, s)
    requires TablesGrow(s.tables, s'.tables)
    ensures FullMesh(c, s')
  {
    forall n, p | n in c.nodes && p in c.nodes && n != p
      ensures Knows(c, s'.tables[n], p)
    {
      KnowsGrows(c, s.tables[n], s'.tables[n], p);
    }
  }

  lemma ExhaustedIsDrainedUnlessBlocked(c: Config, s: State)
    requires ValidConfig(c) && WellFormed(c, s) && Exhausted(c, s)
    requires !SomeBlocked(c, s)
    ensures Drained(c, s)
  {
    forall n, k | n in s.tables && k in s.tables[n] && s.tables[n][k].addr in c.route
      ensures EmptyDelta(s, n, k)
    {
      assert !CanSend(c, s, n, k) && !Blocked(c, s, n, k);
    }
  }

  /** Convergence with a bound: under H, from any reachable full-mesh state, every sequence of
      such exchanges that cannot go on has at most as many as the measure, and ends with all
      stores at the last-write-wins maximum of all writes or with a message too big to be read. */
  lemma ConvergedOrBlocked(c: Config, s: State, picks: seq<Pick>, s': State)
    requires ValidConfig(c) && Reachable(c, GoodClocks, s) && WellFormed(c, s) && FullMesh(c, s)
    requires ExchangesTo(c, s, picks, s') && Exhausted(c, s')
    ensures |picks| <= Measure(c, s) && s'.written == s.written
    ensures Converged(c, s') || SomeBlocked(c, s')
  {
    ReachableSound(c, s);
    ExchangesAreBounded(c, s, picks, s');
    ExchangesAreQuiet(c, s, picks, s');
    QuietlyReachedFacts(c, s, s');
    MeshStays(c, s, s');
    ReachableQuietly(c, GoodClocks, s, s');
    if !SomeBlocked(c, s') {
      ExhaustedIsDrainedUnlessBlocked(c, s');
      DrainedMeshIsSettled(c, s');
      QuiescentConvergence(c, s');
    }
  }

  /** Whatever of these writes a node may ever send is within the bound. */
  ghost predicate MessagesFit(c: Config, written: set<Entry>)
  {
    forall n, d :: n in c.nodes && ItemsOf(d) <= written ==> Fits(c, n, d)
  }

  lemma NoneBlockedWhenAllFit(c: Config, s: State)
    requires ValidConfig(c) && WellFormed(c, s) && Sourced(s.stores, s.written) && MessagesFit(c, s.written)
    ensures !SomeBlocked(c, s)
  {
    forall n, k
      ensures !Blocked(c, s, n, k)
    {
      if n in s.stores && n in s.tables && k in s.tables[n] {
        var d := DeltaSince(s.stores[n], s.tables[n][k].lastSyncTs);
        assert ItemsOf(s.stores[n]) <= s.written;
        assert ItemsOf(d) <= ItemsOf(s.stores[n]);
        assert Fits(c, n, d);
      }
    }
  }

  /** So it ends in convergence when all messages fit. */
  lemma ConvergenceWithinMeasure(c: Config, s: State, picks: seq<Pick>, s': State)
    requires ValidConfig(c) && Reachable(c, GoodClocks, s) && WellFormed(c, s) && FullMesh(c, s)
    requires ExchangesTo(c, s, picks, s') && Exhausted(c, s') && MessagesFit(c, s.written)
    ensures |picks| <= Measure(c, s) && Converged(c, s')
  {
    ConvergedOrBlocked(c, s, picks, s');
    ReachableInv(c, GoodClocks, s);
    ExchangesAreBounded(c, s, picks, s');
    NoneBlockedWhenAllFit(c, s');
  }
}
