/** What the store's operations compute, as functions on maps: `src/state/store.rs`.
    The class in Store.dfy is proved against these functions, and the event log and the
    cluster use them as their atomic critical sections. */
module StoreSpec {
  import opened Crdt

  /** A (key, value) pair: an element of a delta, and also a broadcast state event. */
  datatype Entry = Entry(key: Key, value: LwwValue)

  type StateDelta = seq<Entry>
  type Entries = map<Key, LwwValue>

  // --- Order on stores -------------------------------------------------------------

  /** The store holds a value for the entry's key whose tag is at least the entry's. */
  predicate Dominates(m: Entries, e: Entry)
  {
    e.key in m && TagLe(e.value, m[e.key])
  }

  /** Every entry of `m` is still there, unchanged or replaced by a strictly later tag. */
  predicate Grows(m: Entries, m': Entries)
  {
    forall k :: k in m ==> k in m' && (m'[k] == m[k] || TagLt(m[k], m'[k]))
  }

  /** Equal key and equal tag mean equal value. */
  ghost predicate TagConsistent(es: set<Entry>)
  {
    forall a, b :: a in es && b in es && a.key == b.key && SameTag(a.value, b.value) ==> a == b
  }

  ghost function ItemsOf(m: Entries): (es: set<Entry>)
    ensures forall e :: e in es <==> e.key in m && m[e.key] == e.value
  {
    set k | k in m :: Entry(k, m[k])
  }

  ghost function ElementsOf(d: StateDelta): (es: set<Entry>)
    ensures forall e :: e in es <==> e in d
  {
    set e | e in d
  }

  lemma GrowsTransitive(m: Entries, m': Entries, m'': Entries)
    requires Grows(m, m') && Grows(m', m'')
    ensures Grows(m, m'')
  {
    forall k | k in m
      ensures k in m'' && (m''[k] == m[k] || TagLt(m[k], m''[k]))
    {
      TagOrder(m[k], m'[k], m''[k]);
    }
  }

  lemma DominatesGrows(m: Entries, m': Entries, e: Entry)
    requires Dominates(m, e) && Grows(m, m')
    ensures Dominates(m', e)
  {
    TagOrder(e.value, m[e.key], m'[e.key]);
  }

  // --- Merging one entry, a delta, and a map ---------------------------------------

  function MergeEntry(m: Entries, e: Entry): Entries
  {
    m[e.key := if e.key in m then Merge(m[e.key], e.value) else e.value]
  }

  /** The entry would change the store. */
  predicate Improves(m: Entries, e: Entry)
  {
    e.key !in m || IsDominatedBy(m[e.key], e.value)
  }

  /** One pass of the `merge_delta` loop over the delta, in order. */
  function MergeSeq(m: Entries, d: StateDelta): Entries
  {
    if |d| == 0 then m else MergeEntry(MergeSeq(m, d[..|d| - 1]), d[|d| - 1])
  }

  /** The keys `merge_delta` reports, in loop order, with repetitions. */
  function UpdatedKeys(m: Entries, d: StateDelta): seq<Key>
  {
    if |d| == 0 then []
    else
      var before := UpdatedKeys(m, d[..|d| - 1]);
      if Improves(MergeSeq(m, d[..|d| - 1]), d[|d| - 1]) then before + [d[|d| - 1].key] else before
  }

  /** Merging a whole map, whose keys are distinct, key by key. */
  function JoinMap(m: Entries, d: Entries): Entries
  {
    map k | k in m.Keys + d.Keys ::
      if k in m && k in d then Merge(m[k], d[k]) else if k in m then m[k] else d[k]
  }

  /** `d` lists the entries of `dm`, each once, in some order: what iterating a hash map
      yields. */
  ghost predicate Enumerates(d: StateDelta, dm: Entries)
  {
    && (forall i :: 0 <= i < |d| ==> d[i].key in dm && dm[d[i].key] == d[i].value)
    && (forall i, j :: 0 <= i < j < |d| ==> d[i].key != d[j].key)
    && (forall k :: k in dm ==> Entry(k, dm[k]) in d)
  }

  lemma MergeEntryEffect(m: Entries, e: Entry)
    ensures Grows(m, MergeEntry(m, e))
    ensures Dominates(MergeEntry(m, e), e)
    ensures Improves(m, e) <==> MergeEntry(m, e) != m
    ensures Improves(m, e) <==> !Dominates(m, e)
    ensures !Improves(m, e) ==> MergeEntry(m, e) == m
    ensures Improves(m, e) ==> MergeEntry(m, e)[e.key] == e.value
  {
    TagTotal(e.value, e.value);
    if e.key in m {
      MergeIsMaximum(m[e.key], e.value);
      TagTotal(m[e.key], e.value);
    }
  }

  /** Merging a delta only raises entries, ends above every entry of the delta, and
      invents nothing. */
  lemma {:induction false} MergeSeqEffect(m: Entries, d: StateDelta)
    ensures Grows(m, MergeSeq(m, d))
    ensures forall e :: e in d ==> Dominates(MergeSeq(m, d), e)
    ensures forall k :: k in MergeSeq(m, d) ==>
              (k in m && MergeSeq(m, d)[k] == m[k]) || Entry(k, MergeSeq(m, d)[k]) in d
  {
    if |d| > 0 {
      var init, last := d[..|d| - 1], d[|d| - 1];
      var mid := MergeSeq(m, init);
      MergeSeqEffect(m, init);
      MergeEntryEffect(mid, last);
      GrowsTransitive(m, mid, MergeSeq(m, d));
      assert d == init + [last];
      forall e | e in d
        ensures Dominates(MergeSeq(m, d), e)
      {
        if e in init {
          DominatesGrows(mid, MergeSeq(m, d), e);
        }
      }
    }
  }

  /** Merging a map has the same effect, stated key by key. */
  lemma JoinMapEffect(m: Entries, d: Entries)
    ensures Grows(m, JoinMap(m, d))
    ensures forall e :: e in ItemsOf(d) ==> Dominates(JoinMap(m, d), e)
    ensures forall k :: k in JoinMap(m, d) ==>
              (k in m && JoinMap(m, d)[k] == m[k]) || (k in d && JoinMap(m, d)[k] == d[k])
  {
    forall k | k in m && k in d
      ensures JoinMap(m, d)[k] == m[k] || (JoinMap(m, d)[k] == d[k] && TagLt(m[k], d[k]))
      ensures TagLe(d[k], JoinMap(m, d)[k])
    {
      MergeIsMaximum(m[k], d[k]);
    }
    forall k | k in d
      ensures TagLe(d[k], JoinMap(m, d)[k])
    {
      TagTotal(d[k], d[k]);
    }
  }

  lemma JoinMapUnchangedIff(m: Entries, d: Entries)
    ensures JoinMap(m, d) == m <==> forall e :: e in ItemsOf(d) ==> Dominates(m, e)
  {
    forall k | k in m && k in d
      ensures Merge(m[k], d[k]) == m[k] <==> TagLe(d[k], m[k])
    {
      MergeIsMaximum(m[k], d[k]);
    }
    var j := JoinMap(m, d);
    if j == m {
      JoinMapEffect(m, d);
    }
    if forall e :: e in ItemsOf(d) ==> Dominates(m, e) {
      forall k | k in d ensures k in m && j[k] == m[k] {
        assert Entry(k, d[k]) in ItemsOf(d);
      }
      assert j.Keys == m.Keys;
    }
  }

  lemma JoinMapExtend(m: Entries, dm: Entries, e: Entry)
    requires e.key !in dm
    ensures MergeEntry(JoinMap(m, dm), e) == JoinMap(m, dm[e.key := e.value])
  {
    var l, r := MergeEntry(JoinMap(m, dm), e), JoinMap(m, dm[e.key := e.value]);
    assert l.Keys == r.Keys;
    assert forall k :: k in r ==> l[k] == r[k];
  }

  function Without(m: Entries, k: Key): Entries
  {
    map j | j in m && j != k :: m[j]
  }

  lemma WithoutRestored(m: Entries, k: Key)
    requires k in m
    ensures k !in Without(m, k) && m == Without(m, k)[k := m[k]]
  {
  }

  lemma InitEnumerates(init: StateDelta, last: Entry, dm: Entries)
    requires Enumerates(init + [last], dm)
    ensures Enumerates(init, Without(dm, last.key))
  {
    var d := init + [last];
    assert d[|init|] == last;
    forall i | 0 <= i < |init|
      ensures init[i].key in Without(dm, last.key) && dm[init[i].key] == init[i].value
    {
      assert d[i] == init[i];
    }
    forall i, j | 0 <= i < j < |init|
      ensures init[i].key != init[j].key
    {
      assert d[i] == init[i] && d[j] == init[j];
    }
    forall k | k in Without(dm, last.key)
      ensures Entry(k, dm[k]) in init
    {
      assert Entry(k, dm[k]) in d;
    }
  }

  lemma DropLast(d: StateDelta, dm: Entries) returns (dm': Entries)
    requires Enumerates(d, dm) && |d| > 0
    ensures Enumerates(d[..|d| - 1], dm')
    ensures d[|d| - 1].key !in dm' && dm == dm'[d[|d| - 1].key := d[|d| - 1].value]
  {
    var init, last := d[..|d| - 1], d[|d| - 1];
    dm' := Without(dm, last.key);
    assert d == init + [last];
    InitEnumerates(init, last, dm);
    WithoutRestored(dm, last.key);
  }

  /** A delta that lists a map in any order merges like the map. */
  lemma {:induction false} EnumerationMergesAlike(m: Entries, d: StateDelta, dm: Entries)
    requires Enumerates(d, dm)
    ensures MergeSeq(m, d) == JoinMap(m, dm)
    decreases |d|
  {
    if |d| == 0 {
      assert dm == map[];
      assert JoinMap(m, dm) == m;
    } else {
      var dm' := DropLast(d, dm);
      EnumerationMergesAlike(m, d[..|d| - 1], dm');
      JoinMapExtend(m, dm', d[|d| - 1]);
    }
  }

  // --- Strong eventual consistency -------------------------------------------------

  lemma {:induction false} MergeSeqAppend(m: Entries, d1: StateDelta, d2: StateDelta)
    ensures MergeSeq(m, d1 + d2) == MergeSeq(MergeSeq(m, d1), d2)
    decreases |d2|
  {
    if |d2| == 0 {
      assert d1 + d2 == d1;
    } else {
      var init, last := d2[..|d2| - 1], d2[|d2| - 1];
      assert (d1 + d2)[..|d1 + d2| - 1] == d1 + init;
      MergeSeqAppend(m, d1, init);
    }
  }

  /** Two maps that dominate each other's entries, all tag-consistent, are equal. */
  lemma MutualDominationIsEquality(a: Entries, b: Entries, es: set<Entry>)
    requires TagConsistent(es) && ItemsOf(a) <= es && ItemsOf(b) <= es
    requires forall e :: e in ItemsOf(a) ==> Dominates(b, e)
    requires forall e :: e in ItemsOf(b) ==> Dominates(a, e)
    ensures a == b
  {
    forall k | k in a
      ensures k in b && a[k] == b[k]
    {
      var ea := Entry(k, a[k]);
      assert ea in ItemsOf(a);
      var eb := Entry(k, b[k]);
      assert eb in ItemsOf(b);
      TagOrder(a[k], b[k], a[k]);
      assert ea in es && eb in es;
    }
    forall k | k in b
      ensures k in a
    {
      assert Entry(k, b[k]) in ItemsOf(b);
    }
  }

  /** Wherever two entries of the set differ under one key and tag, the store or a later entry
      of the set beats both. */
  ghost predicate TiesAreBeaten(m: Entries, es: set<Entry>)
  {
    forall a, b :: a in es && b in es && a.key == b.key && SameTag(a.value, b.value) && a != b ==>
      Dominates(m, a) || BeatenIn(es, a)
  }

  ghost predicate BeatenIn(es: set<Entry>, a: Entry)
  {
    exists c :: c in es && c.key == a.key && TagLt(a.value, c.value)
  }

  /** The merged value of a key is one no entry of the delta beats. */
  lemma ResultIsUnbeaten(m: Entries, d: StateDelta, a: Entry)
    requires a.key in MergeSeq(m, d) && MergeSeq(m, d)[a.key] == a.value
    ensures !BeatenIn(ElementsOf(d), a)
  {
    MergeSeqEffect(m, d);
    forall c | c in ElementsOf(d) && c.key == a.key
      ensures !TagLt(a.value, c.value)
    {
      assert c in d;
    }
  }

  lemma SameResultAt(m: Entries, d1: StateDelta, d2: StateDelta, k: Key)
    requires ElementsOf(d1) == ElementsOf(d2) && TiesAreBeaten(m, ElementsOf(d1))
    requires k in MergeSeq(m, d1)
    ensures k in MergeSeq(m, d2) && MergeSeq(m, d2)[k] == MergeSeq(m, d1)[k]
  {
    var r1, r2 := MergeSeq(m, d1), MergeSeq(m, d2);
    MergeSeqEffect(m, d1);
    MergeSeqEffect(m, d2);
    var a := Entry(k, r1[k]);
    ResultIsUnbeaten(m, d1, a);
    assert k in m || a in ElementsOf(d2);
    var b := Entry(k, r2[k]);
    ResultIsUnbeaten(m, d2, b);
    if a != b {
      TagTotal(r1[k], r2[k]);
      TagTotal(r2[k], r1[k]);
      TagOrder(r1[k], r2[k], r1[k]);
      if a in ElementsOf(d1) && b in ElementsOf(d1) {
        assert SameTag(a.value, b.value);
        assert Dominates(m, a) && Dominates(m, b);
      }
    }
  }

  /** Replicas that start alike and merge the same set of entries end alike, whatever the
      order and however often each entry arrives. */
  lemma SameEntriesSameResult(m: Entries, d1: StateDelta, d2: StateDelta)
    requires ElementsOf(d1) == ElementsOf(d2) && TiesAreBeaten(m, ElementsOf(d1))
    ensures MergeSeq(m, d1) == MergeSeq(m, d2)
  {
    forall k | k in MergeSeq(m, d1)
      ensures k in MergeSeq(m, d2) && MergeSeq(m, d2)[k] == MergeSeq(m, d1)[k]
    {
      SameResultAt(m, d1, d2, k);
    }
    forall k | k in MergeSeq(m, d2)
      ensures k in MergeSeq(m, d1)
    {
      SameResultAt(m, d2, d1, k);
    }
  }

  /** An entry that is merged first and not beaten later is what remains. */
  lemma FirstUnbeatenStays(m: Entries, d: StateDelta, a: Entry)
    requires a in d && !Dominates(m, a) && !BeatenIn(ElementsOf(d), a)
    ensures ElementsOf([a] + d) == ElementsOf(d)
    ensures a.key in MergeSeq(m, [a] + d) && MergeSeq(m, [a] + d)[a.key] == a.value
  {
    var m1 := MergeEntry(m, a);
    MergeSeqAppend(m, [a], d);
    assert [a][..0] == [];
    assert MergeSeq(m, [a]) == m1;
    MergeEntryEffect(m, a);
    MergeSeqEffect(m1, d);
    var r := MergeSeq(m1, d);
    var c := Entry(a.key, r[a.key]);
    assert c in ElementsOf(d) <==> c in d;
    forall e
      ensures e in [a] + d <==> e in d
    {
    }
  }

  /** A tie that nothing beats falls to whichever value is merged first. */
  lemma UnbeatenTieShows(m: Entries, d: StateDelta, a: Entry, b: Entry)
    requires a in d && b in d && a.key == b.key && SameTag(a.value, b.value) && a != b
    requires !Dominates(m, a) && !BeatenIn(ElementsOf(d), a)
    ensures ElementsOf([a] + d) == ElementsOf(d) && ElementsOf([b] + d) == ElementsOf(d)
    ensures MergeSeq(m, [a] + d) != MergeSeq(m, [b] + d)
  {
    forall c | c in ElementsOf(d) && c.key == b.key
      ensures TagLt(b.value, c.value) <==> TagLt(a.value, c.value)
    {
    }
    FirstUnbeatenStays(m, d, a);
    FirstUnbeatenStays(m, d, b);
  }

  /** Every sequence of the delta's entries, in any order and with repetitions, merges alike. */
  ghost predicate OrderIsIrrelevant(m: Entries, d: StateDelta)
  {
    forall q: StateDelta :: ElementsOf(q) == ElementsOf(d) ==> MergeSeq(m, q) == MergeSeq(m, d)
  }

  /** The documentation has every merge order give the same state.  That is so for exactly
      those deltas in which the store or a later entry beats every tie between different
      values. */
  lemma OrderIrrelevantIff(m: Entries, d: StateDelta)
    ensures OrderIsIrrelevant(m, d) <==> TiesAreBeaten(m, ElementsOf(d))
  {
    if TiesAreBeaten(m, ElementsOf(d)) {
      forall q: StateDelta | ElementsOf(q) == ElementsOf(d)
        ensures MergeSeq(m, q) == MergeSeq(m, d)
      {
        SameEntriesSameResult(m, q, d);
      }
    } else {
      var a, b :| a in ElementsOf(d) && b in ElementsOf(d) && a.key == b.key && SameTag(a.value, b.value) && a != b &&
                  !Dominates(m, a) && !BeatenIn(ElementsOf(d), a);
      UnbeatenTieShows(m, d, a, b);
    }
  }

  function Flatten(chunks: seq<StateDelta>): StateDelta
  {
    if |chunks| == 0 then [] else Flatten(chunks[..|chunks| - 1]) + chunks[|chunks| - 1]
  }

  /** Merging a delta chunk by chunk, as separate `merge_delta` calls. */
  function MergeChunks(m: Entries, chunks: seq<StateDelta>): Entries
  {
    if |chunks| == 0 then m
    else MergeSeq(MergeChunks(m, chunks[..|chunks| - 1]), chunks[|chunks| - 1])
  }

  lemma {:induction false} ChunkingDoesNotMatter(m: Entries, chunks: seq<StateDelta>)
    ensures MergeChunks(m, chunks) == MergeSeq(m, Flatten(chunks))
  {
    if |chunks| > 0 {
      var init := chunks[..|chunks| - 1];
      ChunkingDoesNotMatter(m, init);
      MergeSeqAppend(m, Flatten(init), chunks[|chunks| - 1]);
    }
  }

  /** Strong eventual consistency of `merge_delta`: any permutation, duplication or
      re-chunking of tag-consistent entries yields the same map. */
  lemma StrongEventualConsistency(m: Entries, chunks1: seq<StateDelta>, chunks2: seq<StateDelta>)
    requires ElementsOf(Flatten(chunks1)) == ElementsOf(Flatten(chunks2))
    requires TagConsistent(ElementsOf(Flatten(chunks1)))
    ensures MergeChunks(m, chunks1) == MergeChunks(m, chunks2)
  {
    ChunkingDoesNotMatter(m, chunks1);
    ChunkingDoesNotMatter(m, chunks2);
    SameEntriesSameResult(m, Flatten(chunks1), Flatten(chunks2));
  }

  lemma {:induction false} DominatedDeltaIsNoOp(m: Entries, d: StateDelta)
    requires forall e :: e in d ==> Dominates(m, e)
    ensures MergeSeq(m, d) == m && UpdatedKeys(m, d) == []
  {
    if |d| > 0 {
      var init, last := d[..|d| - 1], d[|d| - 1];
      assert forall e :: e in init ==> e in d;
      DominatedDeltaIsNoOp(m, init);
      assert last in d;
      MergeEntryEffect(m, last);
    }
  }

  /** A delta applied a second time, at once or after other deltas, changes nothing and
      reports nothing. */
  lemma RetryIsNoOp(m: Entries, d: StateDelta, between: StateDelta)
    ensures MergeSeq(MergeSeq(m, d + between), d) == MergeSeq(m, d + between)
    ensures UpdatedKeys(MergeSeq(m, d + between), d) == []
  {
    MergeSeqEffect(m, d + between);
    forall e | e in d
      ensures Dominates(MergeSeq(m, d + between), e)
    {
      assert e in d + between;
    }
    DominatedDeltaIsNoOp(MergeSeq(m, d + between), d);
  }

  // --- What `merge_delta` reports ---------------------------------------------------

  /** The positions of the delta at which the loop replaces the value of `k`. */
  ghost function ImprovingPositions(m: Entries, d: StateDelta, k: Key): (ps: set<int>)
    ensures forall i :: i in ps <==>
              0 <= i < |d| && d[i].key == k && Improves(MergeSeq(m, d[..i]), d[i])
  {
    set i | 0 <= i < |d| && d[i].key == k && Improves(MergeSeq(m, d[..i]), d[i])
  }

  lemma ImprovingPositionsStep(m: Entries, d: StateDelta, k: Key)
    requires |d| > 0
    ensures ImprovingPositions(m, d, k) == ImprovingPositions(m, d[..|d| - 1], k) +
              (if d[|d| - 1].key == k && Improves(MergeSeq(m, d[..|d| - 1]), d[|d| - 1])
               then {|d| - 1} else {})
    ensures |d| - 1 !in ImprovingPositions(m, d[..|d| - 1], k)
  {
    var init := d[..|d| - 1];
    forall i | 0 <= i < |init|
      ensures init[..i] == d[..i]
    {}
  }

  lemma {:induction false} ReportCountsImprovements(m: Entries, d: StateDelta, k: Key)
    ensures multiset(UpdatedKeys(m, d))[k] == |ImprovingPositions(m, d, k)|
  {
    if |d| > 0 {
      ReportCountsImprovements(m, d[..|d| - 1], k);
      ImprovingPositionsStep(m, d, k);
    } else {
      assert ImprovingPositions(m, d, k) == {};
    }
  }

  lemma {:induction false} ReportedIffChanged(m: Entries, d: StateDelta, k: Key)
    ensures k in UpdatedKeys(m, d) <==> k in MergeSeq(m, d) && (k !in m || m[k] != MergeSeq(m, d)[k])
  {
    if |d| > 0 {
      var init, last := d[..|d| - 1], d[|d| - 1];
      ReportedIffChanged(m, init, k);
      MergeSeqEffect(m, init);
      MergeEntryEffect(MergeSeq(m, init), last);
      MergeSeqEffect(m, d);
      if last.key == k && Improves(MergeSeq(m, init), last) && k in m {
        var mid, end := MergeSeq(m, init)[k], MergeSeq(m, d)[k];
        DominationIsStrictOrder(mid, last.value, mid);
        TagOrder(m[k], mid, end);
      }
    }
  }

  /** The loop changes the map at this position of the delta. */
  ghost predicate ChangesAt(m: Entries, d: StateDelta, q: nat)
    requires q < |d|
  {
    MergeSeq(m, d[..q + 1]) != MergeSeq(m, d[..q])
  }

  /** The positions of the delta at which the loop changes the map, in order, are those whose
      keys the report lists, one after the other. */
  ghost predicate ReportedAt(m: Entries, d: StateDelta, report: seq<Key>, ps: seq<nat>)
  {
    && |ps| == |report|
    && (forall i, j :: 0 <= i < j < |ps| ==> ps[i] < ps[j])
    && (forall i :: 0 <= i < |ps| ==> ps[i] < |d| && report[i] == d[ps[i]].key)
    && (forall q: nat :: q < |d| ==> (q in ps <==> ChangesAt(m, d, q)))
  }

  lemma ChangesAtPrefix(m: Entries, d: StateDelta, q: nat)
    requires q < |d| - 1
    ensures ChangesAt(m, d[..|d| - 1], q) == ChangesAt(m, d, q)
  {
    assert d[..|d| - 1][..q + 1] == d[..q + 1] && d[..|d| - 1][..q] == d[..q];
  }

  lemma ChangesAtLast(m: Entries, d: StateDelta)
    requires |d| > 0
    ensures ChangesAt(m, d, |d| - 1) == Improves(MergeSeq(m, d[..|d| - 1]), d[|d| - 1])
  {
    assert d[..|d| - 1 + 1] == d;
    MergeEntryEffect(MergeSeq(m, d[..|d| - 1]), d[|d| - 1]);
  }

  ghost function ChangePositions(m: Entries, d: StateDelta): seq<nat>
  {
    if |d| == 0 then []
    else
      var before := ChangePositions(m, d[..|d| - 1]);
      if ChangesAt(m, d, |d| - 1) then before + [|d| - 1] else before
  }

  lemma {:induction false} PositionsAreChanges(m: Entries, d: StateDelta, q: nat)
    requires q < |d|
    ensures q in ChangePositions(m, d) <==> ChangesAt(m, d, q)
    decreases |d|
  {
    PositionsAreWithin(m, d[..|d| - 1]);
    if q < |d| - 1 {
      PositionsAreChanges(m, d[..|d| - 1], q);
      ChangesAtPrefix(m, d, q);
    }
  }

  lemma {:induction false} PositionsAreWithin(m: Entries, d: StateDelta)
    ensures forall i :: 0 <= i < |ChangePositions(m, d)| ==> ChangePositions(m, d)[i] < |d|
    ensures forall q :: q in ChangePositions(m, d) ==> q < |d|
    decreases |d|
  {
    if |d| > 0 {
      PositionsAreWithin(m, d[..|d| - 1]);
    }
  }

  lemma {:induction false} PositionsIncrease(m: Entries, d: StateDelta)
    ensures forall i, j :: 0 <= i < j < |ChangePositions(m, d)| ==> ChangePositions(m, d)[i] < ChangePositions(m, d)[j]
    decreases |d|
  {
    if |d| > 0 {
      PositionsIncrease(m, d[..|d| - 1]);
      PositionsAreWithin(m, d[..|d| - 1]);
    }
  }

  lemma {:induction false} PositionsMatchReport(m: Entries, d: StateDelta)
    ensures |ChangePositions(m, d)| == |UpdatedKeys(m, d)|
    ensures forall i :: 0 <= i < |UpdatedKeys(m, d)| && ChangePositions(m, d)[i] < |d| ==>
              UpdatedKeys(m, d)[i] == d[ChangePositions(m, d)[i]].key
    decreases |d|
  {
    if |d| > 0 {
      PositionsMatchReport(m, d[..|d| - 1]);
      PositionsAreWithin(m, d[..|d| - 1]);
      ChangesAtLast(m, d);
    }
  }

  lemma ReportIsInOrder(m: Entries, d: StateDelta) returns (ps: seq<nat>)
    ensures ReportedAt(m, d, UpdatedKeys(m, d), ps)
  {
    ps := ChangePositions(m, d);
    PositionsAreWithin(m, d);
    PositionsIncrease(m, d);
    PositionsMatchReport(m, d);
    forall q: nat | q < |d|
      ensures q in ps <==> ChangesAt(m, d, q)
    {
      PositionsAreChanges(m, d, q);
    }
  }

  /** The report lists a key once for each strict improvement, and hence lists it exactly
      when its final entry differs from its initial one. */
  lemma ReportIsExact(m: Entries, d: StateDelta, k: Key)
    ensures multiset(UpdatedKeys(m, d))[k] == |ImprovingPositions(m, d, k)|
    ensures k in UpdatedKeys(m, d) <==> k in MergeSeq(m, d) && (k !in m || m[k] != MergeSeq(m, d)[k])
  {
    ReportCountsImprovements(m, d, k);
    ReportedIffChanged(m, d, k);
  }

  ghost function ChangedKeys(m: Entries, m': Entries): (ks: set<Key>)
    ensures forall k :: k in ks <==> k in m' && (k !in m || m[k] != m'[k])
  {
    set k | k in m' && (k !in m || m[k] != m'[k])
  }

  lemma {:induction false} UpdatedKeysAreDistinct(m: Entries, d: StateDelta)
    requires forall i, j :: 0 <= i < j < |d| ==> d[i].key != d[j].key
    ensures forall i, j :: 0 <= i < j < |UpdatedKeys(m, d)| ==> UpdatedKeys(m, d)[i] != UpdatedKeys(m, d)[j]
    ensures forall k :: k in UpdatedKeys(m, d) ==> exists i :: 0 <= i < |d| && d[i].key == k
  {
    if |d| > 0 {
      var init := d[..|d| - 1];
      UpdatedKeysAreDistinct(m, init);
      forall k | k in UpdatedKeys(m, d)
        ensures exists i :: 0 <= i < |d| && d[i].key == k
      {
        if k in UpdatedKeys(m, init) {
          var i :| 0 <= i < |init| && init[i].key == k;
          assert d[i].key == k;
        } else {
          assert d[|d| - 1].key == k;
        }
      }
      forall i, j | 0 <= i < j < |UpdatedKeys(m, d)|
        ensures UpdatedKeys(m, d)[i] != UpdatedKeys(m, d)[j]
      {
        var u := UpdatedKeys(m, init);
        if j == |u| {
          assert u[i] in u;
          var p :| 0 <= p < |init| && init[p].key == u[i];
          assert d[p].key != d[|d| - 1].key;
        }
      }
    }
  }

  lemma {:induction false} DistinctLength(s: seq<Key>, ks: set<Key>)
    requires forall i, j :: 0 <= i < j < |s| ==> s[i] != s[j]
    requires forall k :: k in s <==> k in ks
    ensures |s| == |ks|
  {
    if |s| == 0 {
      assert ks == {};
    } else {
      var last := s[|s| - 1];
      var init := s[..|s| - 1];
      forall k | k in ks - {last} ensures k in init {
        assert k in s;
        assert s == init + [last];
      }
      DistinctLength(init, ks - {last});
    }
  }

  /** For a delta with distinct keys, which every gossip delta is, the count put into the
      acknowledgement is the number of keys whose entry changed. */
  lemma MergedCountIsChangedKeys(m: Entries, d: StateDelta)
    requires forall i, j :: 0 <= i < j < |d| ==> d[i].key != d[j].key
    ensures |UpdatedKeys(m, d)| == |ChangedKeys(m, MergeSeq(m, d))|
  {
    UpdatedKeysAreDistinct(m, d);
    forall k
      ensures k in UpdatedKeys(m, d) <==> k in ChangedKeys(m, MergeSeq(m, d))
    {
      ReportIsExact(m, d, k);
    }
    DistinctLength(UpdatedKeys(m, d), ChangedKeys(m, MergeSeq(m, d)));
  }

  // --- Reading back: delta_since and max_timestamp -----------------------------------

  function DeltaSince(m: Entries, since: nat): Entries
  {
    map k | k in m && m[k].timestamp > since :: m[k]
  }

  /** `t` is the largest timestamp of the map, or 0 when the map is empty. */
  ghost predicate IsMaxTimestamp(m: Entries, t: nat)
  {
    && (forall k :: k in m ==> m[k].timestamp <= t)
    && (if m == map[] then t == 0 else exists k :: k in m && m[k].timestamp == t)
  }

  ghost function MaxTimestamp(m: Entries): (t: nat)
    ensures IsMaxTimestamp(m, t)
  {
    MaxTimestampExists(m);
    var t :| IsMaxTimestamp(m, t);
    t
  }

  lemma {:induction false} MaxTimestampExists(m: Entries)
    ensures exists t: nat :: IsMaxTimestamp(m, t)
    decreases |m|
  {
    if m == map[] {
      assert IsMaxTimestamp(m, 0);
    } else {
      var k :| k in m;
      var rest := map j | j in m && j != k :: m[j];
      assert rest.Keys == m.Keys - {k};
      assert |rest.Keys| < |m.Keys|;
      MaxTimestampExists(rest);
      var t: nat :| IsMaxTimestamp(rest, t);
      var best := if rest == map[] || t < m[k].timestamp then m[k].timestamp else t;
      if best != m[k].timestamp {
        var j :| j in rest && rest[j].timestamp == t;
        assert j in m && m[j].timestamp == best;
      }
      forall j | j in m ensures m[j].timestamp <= best {
        if j != k {
          assert j in rest;
        }
      }
      assert IsMaxTimestamp(m, best);
    }
  }

  lemma MaxTimestampUnique(m: Entries, t: nat)
    requires IsMaxTimestamp(m, t)
    ensures t == MaxTimestamp(m)
  {
    var u := MaxTimestamp(m);
    if m != map[] {
      var k :| k in m && m[k].timestamp == t;
      var j :| j in m && m[j].timestamp == u;
    }
  }

  lemma MaxTimestampGrows(m: Entries, m': Entries)
    requires Grows(m, m')
    ensures MaxTimestamp(m) <= MaxTimestamp(m')
  {
    if m != map[] {
      var k :| k in m && m[k].timestamp == MaxTimestamp(m);
      assert k in m';
      assert m'[k].timestamp <= MaxTimestamp(m');
    }
  }

  /** The two descriptions of the recorded sync point agree: the largest timestamp of a
      non-empty delta is the largest timestamp of the store it was cut from. */
  lemma DeltaMaximumIsStoreMaximum(m: Entries, since: nat)
    ensures MaxTimestamp(DeltaSince(m, since)) ==
            if DeltaSince(m, since) == map[] then 0 else MaxTimestamp(m)
    ensures DeltaSince(m, since) == map[] <==> MaxTimestamp(m) <= since
    ensures DeltaSince(m, since) != map[] ==> MaxTimestamp(DeltaSince(m, since)) > since
  {
    var d := DeltaSince(m, since);
    if d != map[] {
      var k :| k in d;
      assert k in m && m[k].timestamp > since;
      var j :| j in m && m[j].timestamp == MaxTimestamp(m);
      assert m[k].timestamp <= MaxTimestamp(m);
      assert j in d;
      assert IsMaxTimestamp(d, MaxTimestamp(m));
      MaxTimestampUnique(d, MaxTimestamp(m));
    } else if m != map[] {
      var j :| j in m && m[j].timestamp == MaxTimestamp(m);
      assert j !in d;
    }
  }

  /** Sending only `delta_since(w)` is as good as sending the whole store exactly when the
      receiver dominates every entry at or below the watermark. */
  lemma DeltaSyncEqualsFullSyncIff(target: Entries, source: Entries, w: nat)
    ensures JoinMap(target, DeltaSince(source, w)) == JoinMap(target, source) <==>
            forall e :: e in ItemsOf(source) && e.value.timestamp <= w ==> Dominates(target, e)
  {
    var cut, full := JoinMap(target, DeltaSince(source, w)), JoinMap(target, source);
    JoinMapEffect(target, source);
    if cut == full {
      forall e | e in ItemsOf(source) && e.value.timestamp <= w
        ensures Dominates(target, e)
      {
        assert Dominates(full, e);
        assert e.key !in DeltaSince(source, w);
        assert e.key in cut && e.key in target && cut[e.key] == target[e.key];
      }
    }
    if forall e :: e in ItemsOf(source) && e.value.timestamp <= w ==> Dominates(target, e) {
      forall k | k in source && source[k].timestamp <= w
        ensures k in target && Merge(target[k], source[k]) == target[k]
      {
        assert Entry(k, source[k]) in ItemsOf(source);
        MergeIsMaximum(target[k], source[k]);
      }
      assert cut.Keys == full.Keys;
      assert forall k :: k in full ==> cut[k] == full[k];
    }
  }

  /** A new replica that asks for everything since 0 gets everything exactly when all
      stamps are positive. */
  lemma DeltaSinceZeroReproducesIff(source: Entries)
    ensures JoinMap(map[], DeltaSince(source, 0)) == source <==>
            forall k :: k in source ==> source[k].timestamp > 0
  {
    var cut := JoinMap(map[], DeltaSince(source, 0));
    assert cut == DeltaSince(source, 0);
    if cut == source {
      forall k | k in source ensures source[k].timestamp > 0 {
        assert k in cut;
      }
    }
  }
}
