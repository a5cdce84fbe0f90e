/** Runs put together from whole operations: exchanges with no other step in between, and
    writes that get the lock at once. */
module WholeRuns {
  import opened Crdt
  import opened StoreSpec
  import opened Protocol
  import opened Cluster

  // --- Putting runs together ----------------------------------------------------------

  lemma RunJoin(c: Config, mode: Mode, run1: seq<State>, run2: seq<State>)
    requires ValidConfig(c) && Run(c, mode, run1) && Run(c, mode, run2)
    requires run1[|run1| - 1] == run2[0]
    ensures Run(c, mode, run1 + run2[1..])
    ensures (run1 + run2[1..])[0] == run1[0]
    ensures (run1 + run2[1..])[|run1 + run2[1..]| - 1] == run2[|run2| - 1]
  {
    var both := run1 + run2[1..];
    forall i | 0 <= i < |both| - 1
      ensures Next(c, mode, both[i], both[i + 1])
    {
      if i < |run1| - 1 {
        assert Next(c, mode, run1[i], run1[i + 1]);
      } else {
        var j := i - (|run1| - 1);
        assert both[i] == run2[j] && both[i + 1] == run2[j + 1];
        assert Next(c, mode, run2[j], run2[j + 1]);
      }
    }
  }

  /** A run without writes is a run under any clocks. */
  lemma QuietRunIsRun(c: Config, mode: Mode, run: seq<State>)
    requires ValidConfig(c) && Run(c, NoWrites, run)
    ensures Run(c, mode, run)
  {
    forall i | 0 <= i < |run| - 1
      ensures Next(c, mode, run[i], run[i + 1])
    {
      var s := run[i];
      assert Next(c, NoWrites, s, run[i + 1]);
      var step :| Legal(c, NoWrites, s, step) && run[i + 1] == Do(c, s, step);
      assert Legal(c, mode, s, step);
    }
  }

  lemma ReachableAlong(c: Config, mode: Mode, s: State, run: seq<State>)
    requires ValidConfig(c) && Reachable(c, mode, s) && Run(c, mode, run) && run[0] == s
    ensures Reachable(c, mode, run[|run| - 1])
  {
    var before :| Run(c, mode, before) && before[0] == Init(c) && before[|before| - 1] == s;
    RunJoin(c, mode, before, run);
  }

  lemma ReachableQuietly(c: Config, mode: Mode, s: State, s': State)
    requires ValidConfig(c) && Reachable(c, mode, s) && QuietlyReaches(c, s, s')
    ensures Reachable(c, mode, s')
  {
    var run :| Run(c, NoWrites, run) && run[0] == s && run[|run| - 1] == s';
    QuietRunIsRun(c, mode, run);
    ReachableAlong(c, mode, s, run);
  }

  /** Some run without writes leads from the one state to the other. */
  ghost predicate QuietlyReaches(c: Config, s: State, s': State)
    requires ValidConfig(c)
  {
    exists run :: Run(c, NoWrites, run) && run[0] == s && run[|run| - 1] == s'
  }

  lemma QuietlyReachesTransitive(c: Config, s: State, s': State, s'': State)
    requires ValidConfig(c) && QuietlyReaches(c, s, s') && QuietlyReaches(c, s', s'')
    ensures QuietlyReaches(c, s, s'')
  {
    var run1 :| Run(c, NoWrites, run1) && run1[0] == s && run1[|run1| - 1] == s';
    var run2 :| Run(c, NoWrites, run2) && run2[0] == s' && run2[|run2| - 1] == s'';
    RunJoin(c, NoWrites, run1, run2);
  }

  lemma StepReaches(c: Config, s: State, step: Step)
    requires ValidConfig(c) && WellFormed(c, s) && Enabled(c, s, step) && !step.Apply?
    ensures QuietlyReaches(c, s, Do(c, s, step))
  {
    assert Legal(c, NoWrites, s, step);
    var run := [s, Do(c, s, step)];
    assert Run(c, NoWrites, run) && run[0] == s;
  }

  lemma QuietlyReachesSelf(c: Config, s: State)
    requires ValidConfig(c) && WellFormed(c, s)
    ensures QuietlyReaches(c, s, s)
  {
    assert Run(c, NoWrites, [s]) && [s][0] == s;
  }

  lemma FreshId(ids: set<nat>) returns (id: nat)
    ensures id !in ids && forall j :: j in ids ==> j < id
    decreases |ids|
  {
    id := 0;
    if ids != {} {
      var i :| i in ids;
      var rest := FreshId(ids - {i});
      id := if i < rest then rest else i + 1;
      assert forall j :: j in ids ==> j == i || j in ids - {i};
    }
  }

  lemma PutDrop(tasks: map<nat, Task>, id: nat, t: Task)
    ensures tasks[id := t] - {id} == tasks - {id}
    ensures id !in tasks ==> tasks - {id} == tasks
  {
  }

  // --- Given sequences of steps ---------------------------------------------------------

  /** Taking these steps, one after the other and no others, leads from `s` to `s'`. */
  ghost predicate RunsTo(c: Config, s: State, steps: seq<Step>, s': State)
    requires ValidConfig(c)
    decreases |steps|
  {
    && WellFormed(c, s)
    && if |steps| == 0 then s' == s
       else Enabled(c, s, steps[0]) && RunsTo(c, Do(c, s, steps[0]), steps[1..], s')
  }

  lemma RunsToCons(c: Config, s: State, step: Step, rest: seq<Step>, s': State)
    requires ValidConfig(c) && WellFormed(c, s)
    ensures RunsTo(c, s, [step] + rest, s') <==> Enabled(c, s, step) && RunsTo(c, Do(c, s, step), rest, s')
  {
    assert ([step] + rest)[1..] == rest;
  }

  lemma FirstIsNext(c: Config, s: State, steps: seq<Step>, s': State) returns (next: State)
    requires ValidConfig(c) && RunsTo(c, s, steps, s') && |steps| > 0 && !steps[0].Apply?
    ensures Next(c, NoWrites, s, next) && RunsTo(c, next, steps[1..], s') && WellFormed(c, s)
  {
    next := Do(c, s, steps[0]);
    assert Legal(c, NoWrites, s, steps[0]);
  }

  lemma {:induction false} StepsMakeRun(c: Config, s: State, steps: seq<Step>, s': State) returns (run: seq<State>)
    requires ValidConfig(c) && RunsTo(c, s, steps, s')
    requires forall step :: step in steps ==> !step.Apply?
    ensures Run(c, NoWrites, run) && run[0] == s && run[|run| - 1] == s' && |run| == |steps| + 1
    decreases |steps|
  {
    if |steps| == 0 {
      run := [s];
    } else {
      assert steps[0] in steps;
      var next := FirstIsNext(c, s, steps, s');
      var rest := StepsMakeRun(c, next, steps[1..], s');
      assert Run(c, NoWrites, [s]);
      RunExtend(c, NoWrites, [s], next);
      RunJoin(c, NoWrites, [s] + [next], rest);
      run := [s] + [next] + rest[1..];
    }
  }

  // --- One whole exchange ---------------------------------------------------------------

  function CompletionSteps(id: nat): seq<Step>
  {
    [Deliver(id)] + ([Register(id)] + ([Ack(id)] + []))
  }

  /** An exchange on entry `k` of node `n`, with `id` for its place in the pool: from picking the target to
      recording the acknowledgement. */
  function ExchangeSteps(id: nat, n: NodeId, k: string): seq<Step>
  {
    [Target(id, n, k)] + ([Build(id)] + CompletionSteps(id))
  }

  lemma ExchangeWritesNothing(id: nat, n: NodeId, k: string)
    ensures forall step :: step in ExchangeSteps(id, n, k) ==> !step.Apply?
    ensures |ExchangeSteps(id, n, k)| == 5
  {
  }

  /** The message that the node would send on the entry now. */
  ghost function CutNow(s: State, n: NodeId, k: string): Exchange
    requires n in s.stores && n in s.tables && k in s.tables[n]
  {
    Cut(s.stores[n], n, k, s.tables[n][k])
  }

  /** The target is picked and its message built, from one and the same state. */
  lemma SendEffect(c: Config, s: State, id: nat, n: NodeId, k: string, rest: seq<Step>, s': State)
    requires ValidConfig(c) && WellFormed(c, s) && id !in s.tasks && n in c.nodes && k in s.tables[n]
    ensures RunsTo(c, s, [Target(id, n, k)] + ([Build(id)] + rest), s') <==>
            RunsTo(c, if Skips(s.tables[n][k], CutNow(s, n, k).delta) then s
                      else PutTask(s, id, Sent(CutNow(s, n, k))), rest, s')
  {
    var target := Targeted(n, k, s.tables[n][k]);
    RunsToCons(c, s, Target(id, n, k), [Build(id)] + rest, s');
    RunsToCons(c, PutTask(s, id, target), Build(id), rest, s');
    BuildResult(c, s, id, n, k, s.tables[n][k]);
  }

  lemma BuildResult(c: Config, s: State, id: nat, n: NodeId, k: string, snap: Peer)
    requires ValidConfig(c) && WellFormed(c, s) && id !in s.tasks && n in c.nodes
    ensures var x := Cut(s.stores[n], n, k, snap);
            DoBuild(c, PutTask(s, id, Targeted(n, k, snap)), id) ==
            if Skips(snap, x.delta) then s else PutTask(s, id, Sent(x))
  {
    PutTwice(s, id, Targeted(n, k, snap), Sent(Cut(s.stores[n], n, k, snap)));
  }

  /** The tables after the receiver `p` has registered the sender and the sender has recorded
      the acknowledgement. */
  ghost function TablesAfter(c: Config, tables: Tables, n: NodeId, k: string, p: NodeId, maxSent: nat)
      : Tables
    requires ValidConfig(c) && n in c.nodes && n in tables && p in tables && k in tables[n]
  {
    var seen := tables[p := TableSeen(tables[p], n, c.gossipAddr[n])];
    seen[n := TableAcked(seen[n], k, tables[n][k].addr, maxSent)]
  }

  lemma TablesAfterWatermark(c: Config, tables: Tables, n: NodeId, k: string, p: NodeId, maxSent: nat)
    requires ValidConfig(c) && n in c.nodes && n in tables && p in tables && k in tables[n]
    ensures var after := TablesAfter(c, tables, n, k, p, maxSent);
            n in after && k in after[n] && after[n][k].lastSyncTs == Max(tables[n][k].lastSyncTs, maxSent)
  {
  }

  /** The receiver has taken in the delta and registered the sender, the sender has recorded the
      acknowledgement, and nothing of the exchange is left under way. */
  ghost function Completed(c: Config, s: State, x: Exchange): (s': State)
    requires ValidConfig(c) && WellFormed(c, s) && x.toAddr in c.route && x.sender in c.nodes
    ensures WellFormed(c, s')
  {
    Recorded(c, Registered(c, TakenIn(c, s, x), x), x)
  }

  lemma PutTwice(s: State, id: nat, t: Task, t': Task)
    ensures PutTask(PutTask(s, id, t), id, t') == PutTask(s, id, t')
    ensures id !in s.tasks ==> DropTask(PutTask(s, id, t), id) == s
  {
    PutDrop(s.tasks, id, t);
    assert s.tasks[id := t][id := t'] == s.tasks[id := t'];
  }

  lemma DeliverIsTakenIn(c: Config, s: State, id: nat, x: Exchange)
    requires ValidConfig(c) && WellFormed(c, s) && x.sender in c.nodes && Deliverable(c, x)
    ensures Enabled(c, PutTask(s, id, Sent(x)), Deliver(id))
    ensures Do(c, PutTask(s, id, Sent(x)), Deliver(id)) == PutTask(TakenIn(c, s, x), id, Merged(x))
  {
    PutTwice(s, id, Sent(x), Merged(x));
  }

  lemma RegisterIsRegistered(c: Config, s: State, id: nat, x: Exchange)
    requires ValidConfig(c) && WellFormed(c, s) && x.sender in c.nodes && x.toAddr in c.route
    ensures Enabled(c, PutTask(s, id, Merged(x)), Register(id))
    ensures Do(c, PutTask(s, id, Merged(x)), Register(id)) == PutTask(Registered(c, s, x), id, Acking(x))
  {
    PutTwice(s, id, Merged(x), Acking(x));
  }

  lemma AckIsRecorded(c: Config, s: State, id: nat, x: Exchange)
    requires ValidConfig(c) && WellFormed(c, s) && x.sender in c.nodes && x.toAddr in c.route && id !in s.tasks
    ensures Enabled(c, PutTask(s, id, Acking(x)), Ack(id))
    ensures Do(c, PutTask(s, id, Acking(x)), Ack(id)) == Recorded(c, s, x)
  {
    PutTwice(s, id, Acking(x), Acking(x));
  }

  /** A message that nothing else interrupts is read and acknowledged, unless it is not
      deliverable; then it cannot even be read. */
  lemma CompletionEffect(c: Config, s: State, id: nat, x: Exchange, s': State)
    requires ValidConfig(c) && WellFormed(c, s) && id !in s.tasks && x.sender in c.nodes
    ensures RunsTo(c, PutTask(s, id, Sent(x)), CompletionSteps(id), s') <==>
            Deliverable(c, x) && s' == Completed(c, s, x)
  {
    RunsToCons(c, PutTask(s, id, Sent(x)), Deliver(id), [Register(id)] + ([Ack(id)] + []), s');
    if Deliverable(c, x) {
      DeliverIsTakenIn(c, s, id, x);
      RegisterThenAck(c, TakenIn(c, s, x), id, x, s');
    }
  }

  lemma RegisterThenAck(c: Config, s: State, id: nat, x: Exchange, s': State)
    requires ValidConfig(c) && WellFormed(c, s) && x.sender in c.nodes && x.toAddr in c.route && id !in s.tasks
    ensures RunsTo(c, PutTask(s, id, Merged(x)), [Register(id)] + ([Ack(id)] + []), s') <==>
            s' == Recorded(c, Registered(c, s, x), x)
  {
    RegisterIsRegistered(c, s, id, x);
    RunsToCons(c, PutTask(s, id, Merged(x)), Register(id), [Ack(id)] + [], s');
    AckIsRecorded(c, Registered(c, s, x), id, x);
    RunsToCons(c, PutTask(Registered(c, s, x), id, Acking(x)), Ack(id), [], s');
  }

  /** What an uninterrupted exchange does, whichever task id it runs under: it is possible
      exactly when the entry is not skipped, its address is answered, and the message is within
      the bound on what its receiver reads; and then its end is determined. */
  lemma ExchangeIff(c: Config, s: State, id: nat, n: NodeId, k: string, s': State)
    requires ValidConfig(c) && WellFormed(c, s) && id !in s.tasks && n in c.nodes && k in s.tables[n]
    ensures var x := CutNow(s, n, k);
            RunsTo(c, s, ExchangeSteps(id, n, k), s') <==>
            !Skips(s.tables[n][k], x.delta) && Deliverable(c, x) && s' == Completed(c, s, x)
  {
    SendEffect(c, s, id, n, k, CompletionSteps(id), s');
    CompletionEffect(c, s, id, CutNow(s, n, k), s');
    NothingToComplete(c, s, id, s');
  }

  lemma NothingToComplete(c: Config, s: State, id: nat, s': State)
    requires ValidConfig(c) && WellFormed(c, s) && id !in s.tasks
    ensures !RunsTo(c, s, CompletionSteps(id), s')
  {
    RunsToCons(c, s, Deliver(id), [Register(id)] + ([Ack(id)] + []), s');
  }

  lemma ExchangeReaches(c: Config, mode: Mode, s: State, n: NodeId, k: string) returns (s': State)
    requires ValidConfig(c) && WellFormed(c, s) && Reachable(c, mode, s)
    requires n in c.nodes && k in s.tables[n]
    requires !Skips(s.tables[n][k], CutNow(s, n, k).delta) && Deliverable(c, CutNow(s, n, k))
    ensures s' == Completed(c, s, CutNow(s, n, k)) && Reachable(c, mode, s')
  {
    var id := FreshId(s.tasks.Keys);
    s' := Completed(c, s, CutNow(s, n, k));
    ExchangeIff(c, s, id, n, k, s');
    ExchangeWritesNothing(id, n, k);
    var run := StepsMakeRun(c, s, ExchangeSteps(id, n, k), s');
    ReachableQuietly(c, mode, s, s');
  }

  // --- One whole write ------------------------------------------------------------------

  /** A write that is stamped and gets the lock at once. */
  lemma WriteNow(c: Config, mode: Mode, s: State, n: NodeId, e: Entry) returns (s': State)
    requires ValidConfig(c) && WellFormed(c, s) && Reachable(c, mode, s) && n in c.nodes && !mode.NoWrites?
    requires e.value.nodeId == n && Improves(s.stores[n], e)
    requires mode.GoodClocks? ==> MaxTimestamp(s.stores[n]) < e.value.timestamp
    ensures WellFormed(c, s') && Reachable(c, mode, s') && s'.tasks == s.tasks && s'.tables == s.tables
    ensures s'.stores == s.stores[n := MergeEntry(s.stores[n], e)] && s'.written == s.written + {e}
  {
    var id := FreshId(s.tasks.Keys);
    var mid := StampNow(c, mode, s, id, n, e);
    s' := ApplyNow(c, mode, mid, id);
    PutDrop(s.tasks, id, Writing(n, e));
    ReachableNext(c, mode, s, mid);
    ReachableNext(c, mode, mid, s');
  }

  lemma StampNow(c: Config, mode: Mode, s: State, id: nat, n: NodeId, e: Entry) returns (s': State)
    requires ValidConfig(c) && WellFormed(c, s) && n in c.nodes && id !in s.tasks && e.value.nodeId == n
    ensures Next(c, mode, s, s') && WellFormed(c, s') && s'.stores == s.stores && s'.tables == s.tables
    ensures s'.written == s.written && s'.tasks == s.tasks[id := Writing(n, e)]
  {
    var stamp := Stamp(id, n, e.key, e.value.value, e.value.timestamp);
    s' := Do(c, s, stamp);
    assert Legal(c, mode, s, stamp);
  }

  lemma ApplyNow(c: Config, mode: Mode, s: State, id: nat) returns (s': State)
    requires ValidConfig(c) && WellFormed(c, s) && Has(c, s, id) && s.tasks[id].Writing? && !mode.NoWrites?
    requires Improves(s.stores[s.tasks[id].node], s.tasks[id].entry)
    requires mode.GoodClocks? ==> ClockOk(c, s, Apply(id))
    ensures Next(c, mode, s, s') && WellFormed(c, s') && s'.tables == s.tables
    ensures s'.tasks == s.tasks - {id} && s'.written == s.written + {s.tasks[id].entry}
    ensures var Writing(n, e) := s.tasks[id];
            s'.stores == s.stores[n := MergeEntry(s.stores[n], e)]
  {
    s' := Do(c, s, Apply(id));
    assert Legal(c, mode, s, Apply(id));
  }
}
