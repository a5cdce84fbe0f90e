/** Clusters that do not converge, and one in which the documented reading of a watermark is
    false.  Every step before that is the ordinary working of the protocol. */
module Failures {
  import opened Crdt
  import opened StoreSpec
  import opened Protocol
  import opened Cluster
  import opened Invariants
  import opened Guarantees
  import opened Convergence
  import opened WholeRuns
  import opened Draining
  import opened Confirmation
  import opened Stranded
  import opened AfterWrite

  // --- A star with perfect clocks --------------------------------------------------------

  /** A hub and two leaves, and the addresses they answer at. */
  datatype Names = Names(hub: NodeId, leaf: NodeId, other: NodeId, hubAddr: Addr, leafAddr: Addr, otherAddr: Addr)

  ghost predicate AreNames(z: Names)
  {
    && z.hub != z.leaf && z.hub != z.other && z.leaf != z.other
    && z.hubAddr != z.leafAddr && z.hubAddr != z.otherAddr && z.leafAddr != z.otherAddr
    && z.hubAddr != "" && z.hubAddr !in {z.hub, z.leaf, z.other}
  }

  /** The leaves are seeded with the hub's address only. */
  ghost function Star(z: Names): Config
  {
    Config({z.hub, z.leaf, z.other},
           map[z.hub := z.hubAddr, z.leaf := z.leafAddr, z.other := z.otherAddr],
           map[z.hub := [], z.leaf := [z.hubAddr], z.other := [z.hubAddr]],
           map[z.hubAddr := z.hub, z.leafAddr := z.leaf, z.otherAddr := z.other])
  }

  ghost predicate IsStar(c: Config, z: Names)
  {
    AreNames(z) && c == Star(z)
  }

  lemma StarIsValid(c: Config, z: Names)
    requires IsStar(c, z)
    ensures ValidConfig(c) && OwnAddresses(c)
  {
  }

  lemma StarReaches(c: Config, z: Names)
    requires IsStar(c, z) && ValidConfig(c)
    ensures forall n :: Reaches(c, z.hubAddr, n) || Reaches(c, z.hub, n) ==> n == z.hub
    ensures forall n :: Reaches(c, z.leaf, n) <==> n == z.leaf
  {
  }

  lemma EmptyDeltaFacts(m: Entries)
    ensures DeltaSince(map[], 0) == map[] && MaxTimestamp(map[]) == 0 && JoinMap(m, map[]) == m
  {
  }

  lemma OneEntryDelta(e: Entry)
    requires e.value.timestamp > 0
    ensures MergeEntry(map[], e) == map[e.key := e.value]
    ensures DeltaSince(map[e.key := e.value], 0) == map[e.key := e.value]
    ensures MaxTimestamp(map[e.key := e.value]) == e.value.timestamp
    ensures JoinMap(map[], map[e.key := e.value]) == map[e.key := e.value]
    ensures JoinMap(map[e.key := e.value], map[]) == map[e.key := e.value]
  {
    var m := map[e.key := e.value];
    assert e.key in m && m[e.key].timestamp == e.value.timestamp;
    MaxTimestampUnique(m, e.value.timestamp);
  }

  /** What the run below keeps of the tables of leaf and hub. */
  ghost predicate StarTables(tables: Tables, z: Names, hubTable: Table, leafKeys: set<string>)
  {
    && z.hub in tables && z.leaf in tables && z.other in tables
    && tables[z.hub] == hubTable && tables[z.leaf].Keys == leafKeys
    && tables[z.other] == map[z.hubAddr := NewPeer(z.hubAddr)]
  }

  /** The hub holds `e` and the other leaf `f`; the rest is as given. */
  ghost predicate StarState(c: Config, s: State, z: Names, e: Entry, f: Entry,
                            leafStore: Entries, hubTable: Table, leafKeys: set<string>)
    requires ValidConfig(c)
  {
    && WellFormed(c, s) && Reachable(c, GoodClocks, s) && s.tasks == map[] && s.written == {e, f}
    && z.hub in s.stores && s.stores[z.hub] == map[e.key := e.value]
    && z.leaf in s.stores && s.stores[z.leaf] == leafStore
    && z.other in s.stores && s.stores[z.other] == map[f.key := f.value]
    && StarTables(s.tables, z, hubTable, leafKeys)
  }

  lemma StarStart(c: Config, z: Names)
    requires IsStar(c, z) && ValidConfig(c)
    ensures var s := Init(c);
            && s.stores[z.hub] == map[] && s.stores[z.leaf] == map[] && s.stores[z.other] == map[]
            && StarTables(s.tables, z, map[], {z.hubAddr}) && s.tables[z.leaf][z.hubAddr] == NewPeer(z.hubAddr)
  {
    assert SeedTable([z.hubAddr]) == map[z.hubAddr := NewPeer(z.hubAddr)];
    assert SeedTable([]) == map[];
  }

  lemma FirstWriteOf(c: Config, s: State, n: NodeId, e: Entry) returns (s': State)
    requires ValidConfig(c) && WellFormed(c, s) && Reachable(c, GoodClocks, s) && n in c.nodes
    requires e.value.nodeId == n && e.value.timestamp > 0 && s.stores[n] == map[]
    ensures WellFormed(c, s') && Reachable(c, GoodClocks, s') && s'.tasks == s.tasks && s'.tables == s.tables
    ensures s'.stores == s.stores[n := map[e.key := e.value]] && s'.written == s.written + {e}
  {
    EmptyDeltaFacts(map[]);
    OneEntryDelta(e);
    s' := WriteNow(c, GoodClocks, s, n, e);
  }

  lemma StarWrites(c: Config, z: Names, e: Entry, f: Entry) returns (s: State)
    requires IsStar(c, z) && ValidConfig(c)
    requires e.value.nodeId == z.hub && f.value.nodeId == z.other && e.value.timestamp > 0 && f.value.timestamp > 0
    ensures StarState(c, s, z, e, f, map[], map[], {z.hubAddr})
    ensures s.tables[z.leaf][z.hubAddr] == NewPeer(z.hubAddr)
  {
    ReachableInit(c, GoodClocks);
    StarStart(c, z);
    var s1 := FirstWriteOf(c, Init(c), z.hub, e);
    s := FirstWriteOf(c, s1, z.other, f);
  }

  lemma CompletedFields(c: Config, s: State, x: Exchange)
    requires ValidConfig(c) && WellFormed(c, s) && x.toAddr in c.route && x.sender in c.nodes
    requires x.peerKey in s.tables[x.sender] && x.toAddr == s.tables[x.sender][x.peerKey].addr
    ensures var p, s' := c.route[x.toAddr], Completed(c, s, x);
            && s'.tasks == s.tasks && s'.written == s.written
            && s'.stores == s.stores[p := JoinMap(s.stores[p], x.delta)]
            && s'.tables == TablesAfter(c, s.tables, x.sender, x.peerKey, p, x.maxSent)
  {
  }

  lemma IntroductionTables(c: Config, tables: Tables, z: Names)
    requires IsStar(c, z) && ValidConfig(c) && StarTables(tables, z, map[], {z.hubAddr})
    requires tables[z.leaf][z.hubAddr] == NewPeer(z.hubAddr)
    ensures StarTables(TablesAfter(c, tables, z.leaf, z.hubAddr, z.hub, 0), z,
                       map[z.leaf := Peer(z.leafAddr, 0, 1)], {z.hubAddr})
  {
  }

  lemma PushTables(c: Config, tables: Tables, z: Names, t: nat)
    requires IsStar(c, z) && ValidConfig(c)
    requires StarTables(tables, z, map[z.leaf := Peer(z.leafAddr, 0, 1)], {z.hubAddr})
    ensures StarTables(TablesAfter(c, tables, z.hub, z.leaf, z.leaf, t), z,
                       PushedTable(z, t), {z.hubAddr, z.hub})
  {
  }

  /** The leaf introduces itself to the hub with an empty delta. */
  lemma StarIntroduction(c: Config, s: State, z: Names, e: Entry, f: Entry) returns (s': State)
    requires IsStar(c, z) && ValidConfig(c) && Fits(c, z.leaf, map[])
    requires StarState(c, s, z, e, f, map[], map[], {z.hubAddr}) && s.tables[z.leaf][z.hubAddr] == NewPeer(z.hubAddr)
    ensures StarState(c, s', z, e, f, map[], map[z.leaf := Peer(z.leafAddr, 0, 1)], {z.hubAddr})
  {
    EmptyDeltaFacts(s.stores[z.hub]);
    IntroductionTables(c, s.tables, z);
    CompletedFields(c, s, CutNow(s, z.leaf, z.hubAddr));
    s' := ExchangeReaches(c, GoodClocks, s, z.leaf, z.hubAddr);
  }

  /** The table of a hub that has pushed everything up to `t` to the leaf. */
  ghost function PushedTable(z: Names, t: nat): Table
  {
    map[z.leaf := Peer(z.leafAddr, t, 2)]
  }

  /** The hub pushes its write to the leaf it now knows. */
  lemma StarPush(c: Config, s: State, z: Names, e: Entry, f: Entry) returns (s': State)
    requires IsStar(c, z) && ValidConfig(c) && e.value.timestamp > 0 && Fits(c, z.hub, map[e.key := e.value])
    requires StarState(c, s, z, e, f, map[], map[z.leaf := Peer(z.leafAddr, 0, 1)], {z.hubAddr})
    ensures StarState(c, s', z, e, f, map[e.key := e.value], PushedTable(z, e.value.timestamp), {z.hubAddr, z.hub})
  {
    OneEntryDelta(e);
    PushTables(c, s.tables, z, e.value.timestamp);
    CompletedFields(c, s, CutNow(s, z.hub, z.leaf));
    s' := ExchangeReaches(c, GoodClocks, s, z.hub, z.leaf);
  }

  lemma StarTablesHide(c: Config, tables: Tables, z: Names, last: nat, t: nat)
    requires IsStar(c, z) && ValidConfig(c) && StarTables(tables, z, PushedTable(z, last), {z.hubAddr, z.hub})
    requires tables.Keys == c.nodes && t <= last
    ensures PastFor(c, tables, z.leaf, t) && KnownByContacts(c, tables, z.leaf, t)
  {
    StarReaches(c, z);
    forall m, k | m in tables && m != z.leaf && k in tables[m] && Reaches(c, k, z.leaf)
      ensures tables[m][k].lastSyncTs >= t && z.leaf in tables[m]
    {
      assert m == z.hub;
    }
  }

  lemma StarHidesLeafWrite(c: Config, s: State, z: Names, e: Entry, f: Entry)
    requires IsStar(c, z) && ValidConfig(c) && e.key != f.key && f.value.timestamp <= e.value.timestamp
    requires s.tables.Keys == c.nodes && s.tasks == map[] && s.written == {e, f}
    requires z.leaf in s.stores && s.stores[z.leaf] == map[e.key := e.value]
    requires StarTables(s.tables, z, PushedTable(z, e.value.timestamp), {z.hubAddr, z.hub})
    ensures Hidden(c, s, {z.leaf}, f, f.value.timestamp)
  {
    StarTablesHide(c, s.tables, z, e.value.timestamp, f.value.timestamp);
  }

  /** The run that leads there: both write, the leaf introduces itself, the hub pushes. */
  lemma StarRun(c: Config, z: Names, e: Entry, f: Entry) returns (s: State)
    requires IsStar(c, z) && ValidConfig(c) && e.value.nodeId == z.hub && f.value.nodeId == z.other
    requires e.value.timestamp > 0 && f.value.timestamp > 0
    requires Fits(c, z.leaf, map[]) && Fits(c, z.hub, map[e.key := e.value])
    ensures StarState(c, s, z, e, f, map[e.key := e.value], PushedTable(z, e.value.timestamp), {z.hubAddr, z.hub})
  {
    var s1 := StarWrites(c, z, e, f);
    var s2 := StarIntroduction(c, s1, z, e, f);
    s := StarPush(c, s2, z, e, f);
  }

  lemma HiddenFromLeaf(c: Config, s: State, p: NodeId, e: Entry, t: nat)
    requires ValidConfig(c) && OwnAddresses(c) && Reachable(c, GoodClocks, s) && Hidden(c, s, {p}, e, t)
    requires p in c.nodes && e in s.written
    ensures !CanConverge(c, s)
  {
    ReachableInv(c, GoodClocks, s);
    assert p in {p} * c.nodes;
    HiddenNeverConverges(c, s, {p}, e, t);
  }

  /** Convergence fails without a full mesh: on every star of a hub and two leaves, with every
      clock right, a leaf's write stamped at or below one that the hub has pushed to the other
      leaf stays hidden from that leaf, so no run without writes whatever ends in convergence. */
  lemma StarDoesNotConverge(c: Config, z: Names, e: Entry, f: Entry) returns (s: State)
    requires IsStar(c, z) && e.key != f.key
    requires e.value.nodeId == z.hub && f.value.nodeId == z.other && 0 < f.value.timestamp <= e.value.timestamp
    requires Fits(c, z.leaf, map[]) && Fits(c, z.hub, map[e.key := e.value])
    ensures ValidConfig(c) && Reachable(c, GoodClocks, s) && s.written == {e, f}
    ensures StarState(c, s, z, e, f, map[e.key := e.value], PushedTable(z, e.value.timestamp), {z.hubAddr, z.hub})
    ensures Hidden(c, s, {z.leaf}, f, f.value.timestamp) && !CanConverge(c, s)
  {
    StarIsValid(c, z);
    s := StarRun(c, z, e, f);
    StarHidesLeafWrite(c, s, z, e, f);
    HiddenFromLeaf(c, s, z.leaf, f, f.value.timestamp);
  }

  lemma FirstCut(s: State, n: NodeId, k: string, f: Entry)
    requires n in s.stores && n in s.tables && k in s.tables[n] && s.tables[n][k].lastSyncTs == 0
    requires s.stores[n] == map[f.key := f.value] && f.value.timestamp > 0
    ensures CutNow(s, n, k) == Exchange(n, k, s.tables[n][k].addr, map[f.key := f.value], f.value.timestamp)
  {
    OneEntryDelta(f);
  }

  /** An exchange leaves all stores but the receiver's alone. */
  lemma CompletedStores(c: Config, s: State, x: Exchange, p: NodeId, q: NodeId)
    requires ValidConfig(c) && WellFormed(c, s) && x.toAddr in c.route && x.sender in c.nodes
    requires p == c.route[x.toAddr] && q in s.stores && q != p
    ensures var stores := Completed(c, s, x).stores;
            stores[p] == JoinMap(s.stores[p], x.delta) && stores[q] == s.stores[q]
  {
  }

  /** And the receiver's table entries for others. */
  lemma CompletedTables(c: Config, s: State, x: Exchange, p: NodeId, k: string)
    requires ValidConfig(c) && WellFormed(c, s) && x.toAddr in c.route && x.sender in c.nodes
    requires p == c.route[x.toAddr] && p != x.sender && k in s.tables[p] && k != x.sender
    ensures var tables := Completed(c, s, x).tables;
            k in tables[p] && tables[p][k] == s.tables[p][k]
  {
  }

  /** The other leaf sends its write to the hub. */
  lemma StarRelay(c: Config, s: State, z: Names, e: Entry, f: Entry) returns (s': State)
    requires IsStar(c, z) && ValidConfig(c) && f.value.timestamp > 0 && Fits(c, z.other, map[f.key := f.value])
    requires StarState(c, s, z, e, f, map[e.key := e.value], PushedTable(z, e.value.timestamp), {z.hubAddr, z.hub})
    ensures Reachable(c, GoodClocks, s')
    ensures z.hub in s'.stores && s'.stores[z.hub] == JoinMap(map[e.key := e.value], map[f.key := f.value])
    ensures z.leaf in s'.stores && s'.stores[z.leaf] == map[e.key := e.value]
    ensures z.hub in s'.tables && z.leaf in s'.tables[z.hub]
    ensures s'.tables[z.hub][z.leaf].lastSyncTs == e.value.timestamp
  {
    FirstCut(s, z.other, z.hubAddr, f);
    CompletedStores(c, s, CutNow(s, z.other, z.hubAddr), z.hub, z.leaf);
    CompletedTables(c, s, CutNow(s, z.other, z.hubAddr), z.hub, z.leaf);
    assert map[f.key := f.value] != map[] by {
      assert f.key in map[f.key := f.value];
    }
    s' := ExchangeReaches(c, GoodClocks, s, z.other, z.hubAddr);
  }

  /** The documented reading of a watermark is false in a reachable state, with every clock right:
      the other leaf has sent its write to the hub, and the hub's watermark for the first leaf is
      past it. */
  lemma ReadingFails(c: Config, z: Names, e: Entry, f: Entry) returns (s: State)
    requires IsStar(c, z) && e.key != f.key
    requires e.value.nodeId == z.hub && f.value.nodeId == z.other && 0 < f.value.timestamp <= e.value.timestamp
    requires Fits(c, z.leaf, map[]) && Fits(c, z.hub, map[e.key := e.value]) && Fits(c, z.other, map[f.key := f.value])
    ensures ValidConfig(c) && Reachable(c, GoodClocks, s)
    ensures Leads(c, s, z.hub, z.leaf, z.leaf) && !Reading(c, s, z.hub, z.leaf, z.leaf)
    ensures Lacking(s, z.hub, z.leaf, z.leaf, f)
  {
    StarIsValid(c, z);
    var pushed := StarRun(c, z, e, f);
    s := StarRelay(c, pushed, z, e, f);
    StarReaches(c, z);
    JoinedItem(e, f);
    LackingEndsReading(c, s, z.hub, z.leaf, z.leaf, f);
  }

  lemma JoinedItem(e: Entry, f: Entry)
    requires e.key != f.key
    ensures f in ItemsOf(JoinMap(map[e.key := e.value], map[f.key := f.value]))
    ensures !Dominates(map[e.key := e.value], f)
  {
  }

  lemma LackingEndsReading(c: Config, s: State, n: NodeId, k: string, p: NodeId, e: Entry)
    requires ValidConfig(c) && Lacking(s, n, k, p, e) && Reaches(c, k, p)
    ensures Leads(c, s, n, k, p) && !Reading(c, s, n, k, p)
  {
  }

  // --- A full mesh with a clock that goes back ---------------------------------------------

  lemma GoodRunIsRun(c: Config, run: seq<State>)
    requires ValidConfig(c) && Run(c, GoodClocks, run)
    ensures Run(c, AnyClocks, run)
  {
    forall i | 0 <= i < |run| - 1
      ensures Next(c, AnyClocks, run[i], run[i + 1])
    {
      var s := run[i];
      assert Next(c, GoodClocks, s, run[i + 1]);
      var step :| Legal(c, GoodClocks, s, step) && run[i + 1] == Do(c, s, step);
      assert Legal(c, AnyClocks, s, step);
    }
  }

  lemma ReachableWithAnyClocks(c: Config, s: State)
    requires ValidConfig(c) && Reachable(c, GoodClocks, s)
    ensures Reachable(c, AnyClocks, s)
  {
    var run :| Run(c, GoodClocks, run) && run[0] == Init(c) && run[|run| - 1] == s;
    GoodRunIsRun(c, run);
  }

  lemma {:induction false} ExchangesKeepTasks(c: Config, s: State, picks: seq<Pick>, s': State)
    requires ValidConfig(c) && WellFormed(c, s) && ExchangesTo(c, s, picks, s')
    ensures s'.tasks == s.tasks
    decreases |picks|
  {
    if |picks| > 0 {
      var x := CutNow(s, picks[0].0, picks[0].1);
      assert Completed(c, s, x).tasks == s.tasks;
      ExchangesKeepTasks(c, Completed(c, s, x), picks[1..], s');
    }
  }

  lemma FirstWritten(c: Config, n: NodeId, e: Entry) returns (s: State)
    requires ValidConfig(c) && FullMesh(c, Init(c)) && n in c.nodes && e.value.nodeId == n
    requires e.value.timestamp > 0
    ensures Reachable(c, GoodClocks, s) && Inv(c, s) && FullMesh(c, s) && s.tasks == map[] && s.written == {e}
  {
    ReachableInit(c, GoodClocks);
    s := FirstWriteOf(c, Init(c), n, e);
    ReachableInv(c, GoodClocks, s);
  }

  /** The first write of a full mesh, once spread. */
  lemma SpreadFirst(c: Config, n: NodeId, e: Entry) returns (s: State)
    requires ValidConfig(c) && FullMesh(c, Init(c)) && n in c.nodes && e.value.nodeId == n
    requires e.value.timestamp > 0 && MessagesFit(c, {e})
    ensures Reachable(c, GoodClocks, s) && AtRest(c, s) && Converged(c, s) && s.tasks == map[] && s.written == {e}
  {
    var s1 := FirstWritten(c, n, e);
    var picks;
    picks, s := DrainWithinMeasure(c, s1);
    ConvergenceWithinMeasure(c, s1, picks, s);
    EndOfExchanges(c, s1, picks, s);
    ReachableQuietly(c, GoodClocks, s1, s);
  }

  lemma EndOfExchanges(c: Config, s: State, picks: seq<Pick>, s': State)
    requires ValidConfig(c) && Inv(c, s) && FullMesh(c, s) && MessagesFit(c, s.written) && s.tasks == map[]
    requires ExchangesTo(c, s, picks, s') && Exhausted(c, s')
    ensures AtRest(c, s') && s'.tasks == map[] && s'.written == s.written && QuietlyReaches(c, s, s')
  {
    ExchangesAreQuiet(c, s, picks, s');
    QuietlyReachedFacts(c, s, s');
    MeshStays(c, s, s');
    NoneBlockedWhenAllFit(c, s');
    ExhaustedIsDrainedUnlessBlocked(c, s');
    ExchangesKeepTasks(c, s, picks, s');
  }

  lemma OnlyWriteHeld(m: Entries, e: Entry)
    requires IsJoin(m, {e})
    ensures m == map[e.key := e.value] && MaxTimestamp(m) == e.value.timestamp
  {
    assert Dominates(m, e);
    forall k | k in m
      ensures k == e.key && m[k] == e.value
    {
      assert Entry(k, m[k]) in ItemsOf(m);
    }
    assert m == map[e.key := e.value];
    MaxTimestampUnique(m, e.value.timestamp);
  }

  lemma SpreadStores(c: Config, s: State, e: Entry, n: NodeId)
    requires n in c.nodes && Converged(c, s) && s.written == {e}
    ensures s.stores[n] == map[e.key := e.value] && MaxTimestamp(s.stores[n]) == e.value.timestamp
  {
    OnlyWriteHeld(s.stores[n], e);
  }

  lemma StampedIsAtRest(c: Config, s: State, n: NodeId, f: Entry) returns (s': State)
    requires ValidConfig(c) && AtRest(c, s) && s.tasks == map[] && n in c.nodes && f.value.nodeId == n
    ensures s' == PutTask(s, 0, Writing(n, f)) && Has(c, s', 0)
    ensures AtRest(c, s') && Next(c, AnyClocks, s, s')
  {
    var stamp := Stamp(0, n, f.key, f.value.value, f.value.timestamp);
    s' := Do(c, s, stamp);
    assert Legal(c, AnyClocks, s, stamp);
    StepKeepsInv(c, s, stamp);
  }

  lemma LateStampApplied(c: Config, s: State, n: NodeId, e: Entry, f: Entry)
    requires ValidConfig(c) && WellFormed(c, s) && Has(c, s, 0) && s.tasks[0] == Writing(n, f)
    requires s.stores[n] == map[e.key := e.value] && s.written == {e} && e.key != f.key
    ensures Next(c, AnyClocks, s, DoApply(c, s, 0)) && DoApply(c, s, 0).written == {e, f}
    ensures f in ItemsOf(DoApply(c, s, 0).stores[n])
  {
    assert Legal(c, AnyClocks, s, Apply(0));
  }

  lemma AllAtMaximum(c: Config, s: State, e: Entry)
    requires Converged(c, s) && s.written == {e}
    ensures forall m :: m in c.nodes ==> e.value.timestamp <= MaxTimestamp(s.stores[m])
  {
    forall m | m in c.nodes
      ensures e.value.timestamp <= MaxTimestamp(s.stores[m])
    {
      SpreadStores(c, s, e, m);
    }
  }

  /** A state at rest in which `n` is about to write `f`, stamped no later than what all have. */
  ghost predicate AboutToWriteLate(c: Config, s: State, n: NodeId, e: Entry, f: Entry)
    requires ValidConfig(c)
  {
    && AtRest(c, s) && Has(c, s, 0) && s.tasks == map[0 := Writing(n, f)] && s.written == {e}
    && s.stores[n] == map[e.key := e.value]
    && forall m :: m in c.nodes ==> e.value.timestamp <= MaxTimestamp(s.stores[m])
  }

  lemma AboutToWrite(c: Config, s: State, n: NodeId, e: Entry, f: Entry) returns (s': State)
    requires ValidConfig(c) && AtRest(c, s) && Converged(c, s) && s.tasks == map[] && s.written == {e}
    requires n in c.nodes && f.value.nodeId == n
    ensures AboutToWriteLate(c, s', n, e, f) && Next(c, AnyClocks, s, s')
  {
    AllAtMaximum(c, s, e);
    SpreadStores(c, s, e, n);
    s' := StampedIsAtRest(c, s, n, f);
  }

  lemma NobodyCarries(c: Config, s: State, n: NodeId, f: Entry, stores: Stores, written: set<Entry>, ps: set<NodeId>)
    requires ValidConfig(c) && s.tasks == map[0 := Writing(n, f)]
    ensures NoTargetCarries(c, stores, written, ps, f, s.tasks)
  {
  }

  lemma LateStampIsHidden(c: Config, s: State, n: NodeId, e: Entry, f: Entry)
    requires ValidConfig(c) && WellFormed(c, s) && Sourced(s.stores, s.written) && TasksInv(c, s)
    requires Has(c, s, 0) && s.tasks == map[0 := Writing(n, f)] && s.written == {e}
    requires e.key != f.key && f.value.timestamp <= e.value.timestamp
    requires TablesPast(c, s.tables, c.nodes - {n}, e.value.timestamp)
    ensures Hidden(c, DoApply(c, s, 0), c.nodes - {n}, f, e.value.timestamp)
  {
    NobodyCarries(c, s, n, f, DoApply(c, s, 0).stores, DoApply(c, s, 0).written, c.nodes - {n});
    LateWriteIsHidden(c, s, 0, c.nodes - {n}, e.value.timestamp);
  }

  lemma HiddenFromOthers(c: Config, s: State, n: NodeId, p: NodeId, f: Entry, t: nat)
    requires ValidConfig(c) && OwnAddresses(c) && Inv(c, s) && Has(c, s, 0) && s.tasks[0] == Writing(n, f)
    requires Hidden(c, DoApply(c, s, 0), c.nodes - {n}, f, t) && f in DoApply(c, s, 0).written
    requires p in c.nodes && p != n
    ensures !CanConverge(c, DoApply(c, s, 0))
  {
    ApplyKeepsInv(c, s, 0);
    assert p in (c.nodes - {n}) * c.nodes;
    HiddenNeverConverges(c, DoApply(c, s, 0), c.nodes - {n}, f, t);
  }

  lemma LateStampNeverConverges(c: Config, s: State, n: NodeId, p: NodeId, e: Entry, f: Entry) returns (s': State)
    requires ValidConfig(c) && OwnAddresses(c) && AboutToWriteLate(c, s, n, e, f) && p in c.nodes && p != n
    requires e.key != f.key && f.value.timestamp <= e.value.timestamp
    ensures Next(c, AnyClocks, s, s') && n in s'.stores && s'.written == {e, f} && f in ItemsOf(s'.stores[n])
    ensures Hidden(c, s', c.nodes - {n}, f, e.value.timestamp) && !CanConverge(c, s')
  {
    s' := DoApply(c, s, 0);
    LateStampApplied(c, s, n, e, f);
    RestingTablesArePast(c, s, c.nodes - {n}, e.value.timestamp);
    LateStampIsHidden(c, s, n, e, f);
    HiddenFromOthers(c, s, n, p, f, e.value.timestamp);
  }

  /** Convergence fails without H: in every full-mesh cluster of two nodes or more, once a write
      of `n` has been spread, a write of another key that `n` stamps no later is hidden from every
      other node, so no run without writes whatever ends in convergence. */
  lemma LateStampDoesNotConverge(c: Config, n: NodeId, p: NodeId, e: Entry, f: Entry) returns (s: State)
    requires ValidConfig(c) && OwnAddresses(c) && FullMesh(c, Init(c)) && n in c.nodes && p in c.nodes && n != p
    requires e.value.nodeId == n && f.value.nodeId == n && e.key != f.key && MessagesFit(c, {e})
    requires 0 < e.value.timestamp && f.value.timestamp <= e.value.timestamp
    ensures Reachable(c, AnyClocks, s) && n in s.stores && s.written == {e, f} && f in ItemsOf(s.stores[n])
    ensures Hidden(c, s, c.nodes - {n}, f, e.value.timestamp) && !CanConverge(c, s)
  {
    var s1 := SpreadFirst(c, n, e);
    ReachableWithAnyClocks(c, s1);
    var s2 := AboutToWrite(c, s1, n, e, f);
    ReachableNext(c, AnyClocks, s1, s2);
    s := LateStampNeverConverges(c, s2, n, p, e, f);
    ReachableNext(c, AnyClocks, s2, s);
  }
}
