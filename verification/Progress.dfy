/** Bounded convergence: between writes, only so many steps can change anything, and driving
    exchanges on entries that have something to send always ends with nothing to send. */
module Progress {
  import opened Crdt
  import opened StoreSpec
  import opened Protocol
  import opened Cluster
  import opened Invariants
  import opened Guarantees

  // --- The measure ----------------------------------------------------------------------

  /** Writes that some node's store does not dominate yet. */
  ghost function Unmet(nodes: set<NodeId>, stores: Stores, written: set<Entry>): set<(NodeId, Entry)>
    requires nodes <= stores.Keys
  {
    set n, e | n in nodes && e in written && !Dominates(stores[n], e) :: (n, e)
  }

  ghost function WatermarkOf(t: Table, key: string): nat
  {
    if key in t then t[key].lastSyncTs else 0
  }

  /** Timestamps of writes above the watermarks of the entries the tables have or may get. */
  ghost function Pending(nodes: set<NodeId>, keys: set<string>, tables: Tables, written: set<Entry>)
      : set<(NodeId, string, nat)>
    requires nodes <= tables.Keys
  {
    set n, k, e | n in nodes && k in keys && e in written &&
                  e.value.timestamp > WatermarkOf(tables[n], k) :: (n, k, e.value.timestamp)
  }

  ghost function Measure(c: Config, s: State): nat
    requires ValidConfig(c) && WellFormed(c, s)
  {
    |Unmet(c.nodes, s.stores, s.written)| + |Pending(c.nodes, KeysOf(c), s.tables, s.written)|
  }

  ghost predicate StoreChanged(s: State, s': State)
  {
    exists n :: n in s.stores && n in s'.stores && s.stores[n] != s'.stores[n]
  }

  ghost predicate Advanced(s: State, s': State, n: NodeId, k: string)
  {
    && n in s.tables && k in s.tables[n] && n in s'.tables && k in s'.tables[n]
    && s.tables[n][k].lastSyncTs < s'.tables[n][k].lastSyncTs
  }

  ghost predicate WatermarkAdvanced(s: State, s': State)
  {
    exists n, k :: Advanced(s, s', n, k)
  }

  lemma SubsetSize<T>(a: set<T>, b: set<T>)
    requires a <= b
    ensures |a| <= |b|
    ensures a != b ==> |a| < |b|
  {
    assert b == a + (b - a);
    if a != b {
      var x :| x in b - a;
      assert |b - a| > 0;
    }
  }

  lemma UnmetShrinks(nodes: set<NodeId>, stores: Stores, stores': Stores, written: set<Entry>)
    requires nodes <= stores.Keys && nodes <= stores'.Keys && StoresGrow(stores, stores')
    ensures Unmet(nodes, stores', written) <= Unmet(nodes, stores, written)
    ensures |Unmet(nodes, stores', written)| <= |Unmet(nodes, stores, written)|
  {
    forall n, e | n in nodes && Dominates(stores[n], e)
      ensures Dominates(stores'[n], e)
    {
      DominatesGrows(stores[n], stores'[n], e);
    }
    SubsetSize(Unmet(nodes, stores', written), Unmet(nodes, stores, written));
  }

  lemma PendingShrinks(nodes: set<NodeId>, keys: set<string>, tables: Tables, tables': Tables, written: set<Entry>)
    requires nodes <= tables.Keys && nodes <= tables'.Keys && TablesGrow(tables, tables')
    ensures Pending(nodes, keys, tables', written) <= Pending(nodes, keys, tables, written)
    ensures |Pending(nodes, keys, tables', written)| <= |Pending(nodes, keys, tables, written)|
  {
    forall n, k | n in nodes
      ensures WatermarkOf(tables[n], k) <= WatermarkOf(tables'[n], k)
    {
      assert TableGrows(tables[n], tables'[n]);
    }
    SubsetSize(Pending(nodes, keys, tables', written), Pending(nodes, keys, tables, written));
  }

  lemma DifferAt(m: Entries, m': Entries) returns (k: Key)
    requires Grows(m, m') && m != m'
    ensures k in m' && (k !in m || m'[k] != m[k]) && !Dominates(m, Entry(k, m'[k]))
  {
    assert exists j :: j in m' && (j !in m || m'[j] != m[j]);
    k :| k in m' && (k !in m || m'[k] != m[k]);
  }

  /** A store only changes by taking in a write it did not dominate. */
  lemma StoreChangeMeets(nodes: set<NodeId>, stores: Stores, stores': Stores, written: set<Entry>, n: NodeId)
    requires nodes <= stores.Keys && nodes <= stores'.Keys && StoresGrow(stores, stores')
    requires Sourced(stores', written)
    requires n in nodes && stores[n] != stores'[n]
    ensures |Unmet(nodes, stores', written)| < |Unmet(nodes, stores, written)|
  {
    var k := DifferAt(stores[n], stores'[n]);
    var e := Entry(k, stores'[n][k]);
    assert ItemsOf(stores'[n]) <= written && e in ItemsOf(stores'[n]);
    TagTotal(e.value, e.value);
    UnmetShrinks(nodes, stores, stores', written);
    assert (n, e) in Unmet(nodes, stores, written) && (n, e) !in Unmet(nodes, stores', written);
    SubsetSize(Unmet(nodes, stores', written), Unmet(nodes, stores, written));
  }

  /** A watermark that advances to the stamp of a write leaves that stamp behind. */
  lemma WatermarkAdvanceMeets(nodes: set<NodeId>, keys: set<string>, tables: Tables, tables': Tables,
                              written: set<Entry>, n: NodeId, k: string, e: Entry)
    requires nodes <= tables.Keys && nodes <= tables'.Keys && TablesGrow(tables, tables')
    requires n in nodes && k in keys && e in written
    requires WatermarkOf(tables[n], k) < e.value.timestamp == WatermarkOf(tables'[n], k)
    ensures |Pending(nodes, keys, tables', written)| < |Pending(nodes, keys, tables, written)|
  {
    PendingShrinks(nodes, keys, tables, tables', written);
    assert (n, k, e.value.timestamp) in Pending(nodes, keys, tables, written);
    assert (n, k, e.value.timestamp) !in Pending(nodes, keys, tables', written);
    SubsetSize(Pending(nodes, keys, tables', written), Pending(nodes, keys, tables, written));
  }

  lemma MaximumIsStamped(d: Entries)
    ensures MaxTimestamp(d) > 0 ==> exists e :: e in ItemsOf(d) && e.value.timestamp == MaxTimestamp(d)
  {
    if MaxTimestamp(d) > 0 {
      var k :| k in d && d[k].timestamp == MaxTimestamp(d);
      assert Entry(k, d[k]) in ItemsOf(d);
    }
  }

  /** A positive watermark is the stamp of a write. */
  lemma WatermarkIsStamp(c: Config, s: State, n: NodeId, k: string) returns (e: Entry)
    requires ValidConfig(c) && AckInv(c, s) && n in s.tables && k in s.tables[n] && s.tables[n][k].lastSyncTs > 0
    ensures e in s.written && e.value.timestamp == s.tables[n][k].lastSyncTs
  {
    var t := s.tables[n][k].lastSyncTs;
    assert IsAckMaximum(s.acked, n, k, t);
    var x :| x in s.acked && x.sender == n && x.peerKey == k && x.maxSent == t;
    assert WasDelivered(c, s, x);
    MaximumIsStamped(x.delta);
    e :| e in ItemsOf(x.delta) && e.value.timestamp == t;
  }

  // --- Steps and runs without writes ------------------------------------------------------

  ghost function Progressed(s: State, s': State): nat
  {
    if StoreChanged(s, s') || WatermarkAdvanced(s, s') then 1 else 0
  }

  lemma AdvanceLowersMeasure(c: Config, s: State, s': State, n: NodeId, k: string)
    requires ValidConfig(c) && WellFormed(c, s) && WellFormed(c, s') && AckInv(c, s')
    requires StoresGrow(s.stores, s'.stores) && TablesGrow(s.tables, s'.tables) && s'.written == s.written
    requires Advanced(s, s', n, k) && k in KeysOf(c)
    ensures Measure(c, s') < Measure(c, s)
  {
    var e := WatermarkIsStamp(c, s', n, k);
    WatermarkAdvanceMeets(c.nodes, KeysOf(c), s.tables, s'.tables, s.written, n, k, e);
    UnmetShrinks(c.nodes, s.stores, s'.stores, s.written);
  }

  lemma StoreChangeLowersMeasure(c: Config, s: State, s': State)
    requires ValidConfig(c) && WellFormed(c, s) && WellFormed(c, s') && Sourced(s'.stores, s'.written)
    requires StoresGrow(s.stores, s'.stores) && TablesGrow(s.tables, s'.tables) && s'.written == s.written
    requires StoreChanged(s, s')
    ensures Measure(c, s') < Measure(c, s)
  {
    var n :| n in s.stores && n in s'.stores && s.stores[n] != s'.stores[n];
    StoreChangeMeets(c.nodes, s.stores, s'.stores, s.written, n);
    PendingShrinks(c.nodes, KeysOf(c), s.tables, s'.tables, s.written);
  }

  lemma MeasureShrinks(c: Config, s: State, s': State)
    requires ValidConfig(c) && Inv(c, s) && Inv(c, s') && StateGrows(s, s') && s'.written == s.written
    ensures Measure(c, s') + Progressed(s, s') <= Measure(c, s)
  {
    if StoreChanged(s, s') {
      StoreChangeLowersMeasure(c, s, s');
    } else if WatermarkAdvanced(s, s') {
      var n, k :| Advanced(s, s', n, k);
      assert Shaped(c, s.tables[n]);
      AdvanceLowersMeasure(c, s, s', n, k);
    } else {
      UnmetShrinks(c.nodes, s.stores, s'.stores, s.written);
      PendingShrinks(c.nodes, KeysOf(c), s.tables, s'.tables, s.written);
    }
  }

  /** No step without a write raises the measure, and each store-changing merge and each
      watermark-advancing acknowledgement lowers it. */
  lemma QuietStepLowersMeasure(c: Config, s: State, s': State)
    requires ValidConfig(c) && Inv(c, s) && Next(c, NoWrites, s, s')
    ensures Inv(c, s')
    ensures Measure(c, s') + Progressed(s, s') <= Measure(c, s)
  {
    var step :| Legal(c, NoWrites, s, step) && s' == Do(c, s, step);
    NextKeepsInv(c, NoWrites, s, s');
    QuietStepFrame(c, s, step);
    MeasureShrinks(c, s, s');
  }

  /** How many steps of the run changed a store or advanced a watermark. */
  ghost function ProgressCount(run: seq<State>): nat
  {
    if |run| <= 1 then 0
    else ProgressCount(run[..|run| - 1]) + Progressed(run[|run| - 2], run[|run| - 1])
  }

  /** Bounded progress: in any run without writes, with any interleaving and losses, the
      number of steps that change a store or advance a watermark is within the measure. */
  lemma {:induction false} BoundedProgress(c: Config, run: seq<State>)
    requires ValidConfig(c) && Run(c, NoWrites, run) && Inv(c, run[0])
    ensures Inv(c, run[|run| - 1])
    ensures ProgressCount(run) + Measure(c, run[|run| - 1]) <= Measure(c, run[0])
    decreases |run|
  {
    if |run| > 1 {
      RunPrefix(c, NoWrites, run);
      BoundedProgress(c, run[..|run| - 1]);
      QuietStepLowersMeasure(c, run[|run| - 2], run[|run| - 1]);
    }
  }
}
