/** Event emission outside the store's lock: `set` and `merge_delta` of
    `src/state/store.rs`, run by any number of threads.

    `set` sends the winner it captured under the lock; `merge_delta` reads each reported key
    again and then sends what it read.  Between its critical section, its reads and its sends
    a thread can be overtaken, so events leave out of order.  The log is append-only: what a
    bounded channel drops is dropped by the subscriber (LagRecovery). */
module EventLog {
  import opened Crdt
  import opened StoreSpec

  /** A thread past its critical section: about to read the next key, or about to send. */
  datatype Emitter =
    | Reading(keys: seq<Key>)
    | Sending(event: Entry, rest: seq<Key>)

  datatype LogState = LogState(store: Entries, log: seq<Entry>, emitters: map<nat, Emitter>)

  datatype LogStep =
    | Set(id: nat, entry: Entry)
    | MergeDelta(id: nat, delta: StateDelta)
    | Read(id: nat)
    | Send(id: nat)

  ghost predicate CanDo(s: LogState, step: LogStep)
  {
    match step
    case Set(id, _) => id !in s.emitters
    case MergeDelta(id, _) => id !in s.emitters
    case Read(id) => id in s.emitters && s.emitters[id].Reading? && s.emitters[id].keys != []
    case Send(id) => id in s.emitters && s.emitters[id].Sending?
  }

  /** The thread goes on with the remaining keys, or is done. */
  ghost function Continue(es: map<nat, Emitter>, id: nat, keys: seq<Key>): map<nat, Emitter>
  {
    if keys == [] then es - {id} else es[id := Reading(keys)]
  }

  ghost function AfterSet(s: LogState, id: nat, e: Entry): LogState
  {
    var m := MergeEntry(s.store, e);
    LogState(m, s.log, s.emitters[id := Sending(Entry(e.key, m[e.key]), [])])
  }

  ghost function AfterMerge(s: LogState, id: nat, d: StateDelta): LogState
  {
    LogState(MergeSeq(s.store, d), s.log, Continue(s.emitters, id, UpdatedKeys(s.store, d)))
  }

  ghost function AfterRead(s: LogState, id: nat): LogState
    requires id in s.emitters && s.emitters[id].Reading? && s.emitters[id].keys != []
  {
    var keys := s.emitters[id].keys;
    if keys[0] in s.store then
      s.(emitters := s.emitters[id := Sending(Entry(keys[0], s.store[keys[0]]), keys[1..])])
    else
      s.(emitters := Continue(s.emitters, id, keys[1..]))
  }

  ghost function AfterSend(s: LogState, id: nat): LogState
    requires id in s.emitters && s.emitters[id].Sending?
  {
    s.(log := s.log + [s.emitters[id].event], emitters := Continue(s.emitters, id, s.emitters[id].rest))
  }

  ghost function After(s: LogState, step: LogStep): LogState
    requires CanDo(s, step)
  {
    match step
    case Set(id, e) => AfterSet(s, id, e)
    case MergeDelta(id, d) => AfterMerge(s, id, d)
    case Read(id) => AfterRead(s, id)
    case Send(id) => AfterSend(s, id)
  }

  ghost predicate LogNext(s: LogState, s': LogState)
  {
    exists step :: CanDo(s, step) && s' == After(s, step)
  }

  ghost predicate LogRun(run: seq<LogState>)
  {
    |run| > 0 && forall i :: 0 <= i < |run| - 1 ==> LogNext(run[i], run[i + 1])
  }

  const START: LogState := LogState(map[], [], map[])

  ghost predicate FromStart(run: seq<LogState>)
  {
    LogRun(run) && run[0] == START
  }

  // --- The invariant ------------------------------------------------------------------

  /** The store holds the event's value, or one with a strictly later tag. */
  ghost predicate AtMost(m: Entries, e: Entry)
  {
    e.key in m && (e.value == m[e.key] || TagLt(e.value, m[e.key]))
  }

  ghost predicate EmitterOk(m: Entries, t: Emitter)
  {
    match t
    case Reading(keys) => forall k :: k in keys ==> k in m
    case Sending(e, rest) => AtMost(m, e) && forall k :: k in rest ==> k in m
  }

  ghost predicate Past(s: LogState)
  {
    && (forall e :: e in s.log ==> AtMost(s.store, e))
    && (forall id :: id in s.emitters ==> EmitterOk(s.store, s.emitters[id]))
  }

  /** The thread will still send the value `v` of `k`, or read `k` again and send that. */
  ghost predicate Owes(t: Emitter, k: Key, v: LwwValue)
  {
    match t
    case Reading(keys) => k in keys
    case Sending(e, rest) => e == Entry(k, v) || k in rest
  }

  ghost predicate Owed(emitters: map<nat, Emitter>, k: Key, v: LwwValue)
  {
    exists id :: id in emitters && Owes(emitters[id], k, v)
  }

  /** The store's value of `k` was in `base` already, has been sent since position `off`, or
      is still owed by a thread. */
  ghost predicate Accounted(base: Entries, off: nat, s: LogState, k: Key)
    requires k in s.store && off <= |s.log|
  {
    || (k in base && base[k] == s.store[k])
    || Entry(k, s.store[k]) in s.log[off..]
    || Owed(s.emitters, k, s.store[k])
  }

  ghost predicate AllAccounted(base: Entries, off: nat, s: LogState)
  {
    off <= |s.log| && forall k :: k in s.store ==> Accounted(base, off, s, k)
  }

  lemma AtMostGrows(m: Entries, m': Entries, e: Entry)
    requires AtMost(m, e) && Grows(m, m')
    ensures AtMost(m', e)
  {
    TagOrder(e.value, m[e.key], m'[e.key]);
  }

  lemma PastGrows(s: LogState, m: Entries)
    requires Past(s) && Grows(s.store, m)
    ensures Past(s.(store := m))
  {
    forall e | e in s.log
      ensures AtMost(m, e)
    {
      AtMostGrows(s.store, m, e);
    }
    forall id | id in s.emitters
      ensures EmitterOk(m, s.emitters[id])
    {
      assert EmitterOk(s.store, s.emitters[id]);
      if s.emitters[id].Sending? {
        AtMostGrows(s.store, m, s.emitters[id].event);
      }
    }
  }

  lemma ContinueOk(m: Entries, es: map<nat, Emitter>, id: nat, keys: seq<Key>)
    requires forall j :: j in es ==> EmitterOk(m, es[j])
    requires forall k :: k in keys ==> k in m
    ensures forall j :: j in Continue(es, id, keys) ==> EmitterOk(m, Continue(es, id, keys)[j])
  {
  }

  lemma StepKeepsPast(s: LogState, step: LogStep)
    requires Past(s) && CanDo(s, step)
    ensures Past(After(s, step)) && Grows(s.store, After(s, step).store)
  {
    match step {
      case Set(id, e) =>
        MergeEntryEffect(s.store, e);
        PastGrows(s, MergeEntry(s.store, e));
      case MergeDelta(id, d) =>
        var m := MergeSeq(s.store, d);
        MergeSeqEffect(s.store, d);
        PastGrows(s, m);
        forall k | k in UpdatedKeys(s.store, d)
          ensures k in m
        {
          ReportedIffChanged(s.store, d, k);
        }
        ContinueOk(m, s.emitters, id, UpdatedKeys(s.store, d));
      case Read(id) =>
        assert EmitterOk(s.store, s.emitters[id]);
        ContinueOk(s.store, s.emitters, id, s.emitters[id].keys[1..]);
      case Send(id) =>
        assert EmitterOk(s.store, s.emitters[id]);
        ContinueOk(s.store, s.emitters, id, s.emitters[id].rest);
    }
  }

  // Accounting, one lemma per step.

  lemma AccountedAfterSet(base: Entries, off: nat, s: LogState, id: nat, e: Entry)
    requires AllAccounted(base, off, s) && id !in s.emitters
    ensures AllAccounted(base, off, AfterSet(s, id, e))
  {
    var s' := AfterSet(s, id, e);
    forall k | k in s'.store
      ensures Accounted(base, off, s', k)
    {
      if k == e.key {
        assert Owes(s'.emitters[id], k, s'.store[k]);
      } else {
        assert Accounted(base, off, s, k);
        if Owed(s.emitters, k, s.store[k]) {
          var j :| j in s.emitters && Owes(s.emitters[j], k, s.store[k]);
          assert Owes(s'.emitters[j], k, s'.store[k]);
        }
      }
    }
  }

  lemma AccountedAfterMerge(base: Entries, off: nat, s: LogState, id: nat, d: StateDelta)
    requires AllAccounted(base, off, s) && id !in s.emitters
    ensures AllAccounted(base, off, AfterMerge(s, id, d))
  {
    var s' := AfterMerge(s, id, d);
    var updated := UpdatedKeys(s.store, d);
    forall k | k in s'.store
      ensures Accounted(base, off, s', k)
    {
      ReportedIffChanged(s.store, d, k);
      if k in updated {
        assert Owes(s'.emitters[id], k, s'.store[k]);
      } else {
        assert Accounted(base, off, s, k);
        if Owed(s.emitters, k, s.store[k]) {
          var j :| j in s.emitters && Owes(s.emitters[j], k, s.store[k]);
          assert Owes(s'.emitters[j], k, s'.store[k]);
        }
      }
    }
  }

  lemma AccountedAfterRead(base: Entries, off: nat, s: LogState, id: nat)
    requires AllAccounted(base, off, s)
    requires id in s.emitters && s.emitters[id].Reading? && s.emitters[id].keys != []
    ensures AllAccounted(base, off, AfterRead(s, id))
  {
    var s' := AfterRead(s, id);
    var keys := s.emitters[id].keys;
    assert keys == [keys[0]] + keys[1..];
    forall k | k in s'.store
      ensures Accounted(base, off, s', k)
    {
      assert Accounted(base, off, s, k);
      if Owed(s.emitters, k, s.store[k]) {
        var j :| j in s.emitters && Owes(s.emitters[j], k, s.store[k]);
        assert Owes(s'.emitters[j], k, s'.store[k]);
      }
    }
  }

  lemma AccountedAfterSend(base: Entries, off: nat, s: LogState, id: nat)
    requires AllAccounted(base, off, s) && id in s.emitters && s.emitters[id].Sending?
    ensures AllAccounted(base, off, AfterSend(s, id))
  {
    var s' := AfterSend(s, id);
    var event := s.emitters[id].event;
    assert s'.log[off..] == s.log[off..] + [event];
    forall k | k in s'.store
      ensures Accounted(base, off, s', k)
    {
      assert Accounted(base, off, s, k);
      if Owed(s.emitters, k, s.store[k]) {
        var j :| j in s.emitters && Owes(s.emitters[j], k, s.store[k]);
        if j != id || k in s.emitters[id].rest {
          assert Owes(s'.emitters[j], k, s'.store[k]);
        } else {
          assert event == Entry(k, s'.store[k]);
        }
      }
    }
  }

  lemma StepKeepsAccounted(base: Entries, off: nat, s: LogState, step: LogStep)
    requires AllAccounted(base, off, s) && CanDo(s, step)
    ensures AllAccounted(base, off, After(s, step))
    ensures s.log <= After(s, step).log
  {
    match step {
      case Set(id, e) => AccountedAfterSet(base, off, s, id, e);
      case MergeDelta(id, d) => AccountedAfterMerge(base, off, s, id, d);
      case Read(id) => AccountedAfterRead(base, off, s, id);
      case Send(id) => AccountedAfterSend(base, off, s, id);
    }
  }

  lemma LogRunPrefix(run: seq<LogState>)
    requires LogRun(run) && |run| > 1
    ensures LogRun(run[..|run| - 1])
    ensures LogNext(run[|run| - 2], run[|run| - 1])
  {
    var pre := run[..|run| - 1];
    forall i | 0 <= i < |pre| - 1
      ensures LogNext(pre[i], pre[i + 1])
    {
      assert LogNext(run[i], run[i + 1]);
    }
    assert LogNext(run[|run| - 2], run[|run| - 2 + 1]);
  }

  lemma {:induction false} RunKeepsLogInv(run: seq<LogState>)
    requires LogRun(run) && Past(run[0])
    ensures Past(run[|run| - 1]) && Grows(run[0].store, run[|run| - 1].store)
    ensures AllAccounted(run[0].store, |run[0].log|, run[|run| - 1])
    ensures run[0].log <= run[|run| - 1].log
    decreases |run|
  {
    if |run| > 1 {
      var s, s' := run[|run| - 2], run[|run| - 1];
      LogRunPrefix(run);
      RunKeepsLogInv(run[..|run| - 1]);
      var step :| CanDo(s, step) && s' == After(s, step);
      StepKeepsPast(s, step);
      StepKeepsAccounted(run[0].store, |run[0].log|, s, step);
      GrowsTransitive(run[0].store, s.store, s'.store);
    }
  }

  // --- What a subscriber can rely on ------------------------------------------------------

  /** No event is ever ahead of the store, under any interleaving. */
  lemma EventsNeverAhead(run: seq<LogState>, e: Entry)
    requires FromStart(run) && e in run[|run| - 1].log
    ensures AtMost(run[|run| - 1].store, e)
  {
    RunKeepsLogInv(run);
  }

  /** Event completeness: when no thread has an event left to send, the merge of all events,
      in any order, is the store. */
  lemma EventCompleteness(run: seq<LogState>, q: seq<Entry>)
    requires FromStart(run) && run[|run| - 1].emitters == map[]
    requires ElementsOf(q) == ElementsOf(run[|run| - 1].log)
    ensures MergeSeq(map[], q) == run[|run| - 1].store
  {
    var s := run[|run| - 1];
    RunKeepsLogInv(run);
    forall e | e in q
      ensures AtMost(s.store, e)
    {
      assert e in ElementsOf(q);
      assert e in s.log;
    }
    forall k | k in s.store
      ensures Entry(k, s.store[k]) in q
    {
      assert Accounted(map[], 0, s, k);
      assert s.log[0..] == s.log;
      assert Entry(k, s.store[k]) in ElementsOf(s.log);
      assert Entry(k, s.store[k]) in ElementsOf(q);
    }
    MergesToStoreIff(map[], q, s.store);
  }

  /** The events sent after the first state. */
  ghost function Since(s: LogState, s': LogState): seq<Entry>
  {
    if |s.log| <= |s'.log| then s'.log[|s.log|..] else []
  }

  /** What a client that holds `m` merges to catch up: the answer to `delta_since(w)` at state
      `s` and all events sent after that, in any order, and perhaps older events again. */
  ghost predicate CatchesUp(s: LogState, s': LogState, w: nat, q: seq<Entry>)
  {
    && ItemsOf(DeltaSince(s.store, w)) + ElementsOf(Since(s, s')) <= ElementsOf(q)
    && ElementsOf(q) <= ItemsOf(DeltaSince(s.store, w)) + ElementsOf(s'.log)
  }

  /** The client's own map is as `delta_since(w)` takes it to be, for what neither the answer nor
      an event brings. */
  ghost predicate HasTheRest(s: LogState, s': LogState, w: nat, m: Entries, q: seq<Entry>)
  {
    forall e :: e in ItemsOf(s.store) && e.value.timestamp <= w && e in ItemsOf(s'.store) && e !in q ==> Dominates(m, e)
  }

  /** Merging what is never ahead of the store gives the store exactly when every value of the
      store was held or merged. */
  lemma MergesToStoreIff(m: Entries, q: seq<Entry>, store: Entries)
    requires forall e :: e in ItemsOf(m) ==> AtMost(store, e)
    requires forall e :: e in q ==> AtMost(store, e)
    ensures MergeSeq(m, q) == store <==> forall e :: e in ItemsOf(store) ==> Dominates(m, e) || e in q
  {
    var r := MergeSeq(m, q);
    MergeSeqEffect(m, q);
    forall k | k in r
      ensures AtMost(store, Entry(k, r[k]))
    {
      if k in m && r[k] == m[k] {
        assert Entry(k, r[k]) in ItemsOf(m);
      }
    }
    if r == store {
      forall e | e in ItemsOf(store)
        ensures Dominates(m, e) || e in q
      {
        TagTotal(e.value, e.value);
        assert e == Entry(e.key, r[e.key]);
      }
    }
    if forall e :: e in ItemsOf(store) ==> Dominates(m, e) || e in q {
      forall k | k in store
        ensures k in r && r[k] == store[k]
      {
        var e := Entry(k, store[k]);
        assert e in ItemsOf(store);
        if Dominates(m, e) {
          DominatesGrows(m, r, e);
        }
        assert Dominates(r, e);
        assert AtMost(store, Entry(k, r[k]));
      }
      assert r.Keys == store.Keys;
    }
  }

  lemma CatchUpIsAtMost(s: LogState, s': LogState, w: nat, q: seq<Entry>)
    requires Past(s') && Grows(s.store, s'.store) && CatchesUp(s, s', w, q)
    ensures forall e :: e in q ==> AtMost(s'.store, e)
  {
    forall e | e in q
      ensures AtMost(s'.store, e)
    {
      assert e in ElementsOf(q);
      if e in ItemsOf(DeltaSince(s.store, w)) {
        AtMostGrows(s.store, s'.store, e);
      } else {
        assert e in s'.log;
      }
    }
  }

  /** With no emission outstanding, what the answer and the events leave out is in the store
      since before, at or below `w`. */
  lemma LeftOutIsOld(s: LogState, s': LogState, w: nat, q: seq<Entry>, e: Entry)
    requires AllAccounted(s.store, |s.log|, s') && s'.emitters == map[] && CatchesUp(s, s', w, q)
    requires e in ItemsOf(s'.store) && e !in q
    ensures e in ItemsOf(s.store) && e.value.timestamp <= w
  {
    assert Accounted(s.store, |s.log|, s', e.key);
    assert e !in ElementsOf(q);
    assert e !in ElementsOf(Since(s, s')) && e !in ItemsOf(DeltaSince(s.store, w));
  }

  /** Lag recovery: a client that lost any events and holds `m`, asks for everything since `w` at
      some point of the run and merges the answer with every event sent after it, ends up with
      the store once no event is left to send, if and only if it already had what the answer
      leaves out and no later event replaces. */
  lemma LagRecoveryIff(before: seq<LogState>, after: seq<LogState>, w: nat, m: Entries, q: seq<Entry>)
    requires FromStart(before) && LogRun(after) && after[0] == before[|before| - 1]
    requires after[|after| - 1].emitters == map[]
    requires CatchesUp(after[0], after[|after| - 1], w, q)
    requires forall e :: e in ItemsOf(m) ==> AtMost(after[|after| - 1].store, e)
    ensures MergeSeq(m, q) == after[|after| - 1].store <==> HasTheRest(after[0], after[|after| - 1], w, m, q)
  {
    var s, s' := after[0], after[|after| - 1];
    RunKeepsLogInv(before);
    RunKeepsLogInv(after);
    CatchUpIsAtMost(s, s', w, q);
    MergesToStoreIff(m, q, s'.store);
    forall e | e in ItemsOf(s'.store) && e !in q
      ensures e in ItemsOf(s.store) && e.value.timestamp <= w
    {
      LeftOutIsOld(s, s', w, q, e);
    }
  }

  /** In particular a client that asks since 0 needs nothing to start from, provided stamps are
      positive. */
  lemma LagRecovery(before: seq<LogState>, after: seq<LogState>, q: seq<Entry>)
    requires FromStart(before) && LogRun(after) && after[0] == before[|before| - 1]
    requires after[|after| - 1].emitters == map[]
    requires forall k :: k in after[0].store ==> after[0].store[k].timestamp > 0
    requires CatchesUp(after[0], after[|after| - 1], 0, q)
    ensures MergeSeq(map[], q) == after[|after| - 1].store
  {
    LagRecoveryIff(before, after, 0, map[], q);
  }

  /** The last event alone is not enough: two writes of one key whose sends cross leave the
      older value as the last event, with nothing left to send. */
  lemma LastEventMayBeStale() returns (run: seq<LogState>)
    ensures FromStart(run)
    ensures var s := run[|run| - 1];
            && s.emitters == map[] && |s.log| == 2 && s.log[0].key == s.log[1].key
            && s.log[1].key in s.store && s.log[1].value != s.store[s.log[1].key]
  {
    var e1 := Entry("k", LwwValue("old", 1, "n"));
    var e2 := Entry("k", LwwValue("new", 2, "n"));
    var s1 := LogState(map["k" := e1.value], [], map[1 := Sending(e1, [])]);
    var s2 := LogState(map["k" := e2.value], [], map[1 := Sending(e1, []), 2 := Sending(e2, [])]);
    var s3 := LogState(map["k" := e2.value], [e2], map[1 := Sending(e1, [])]);
    var s4 := LogState(map["k" := e2.value], [e2, e1], map[]);
    assert AfterSet(START, 1, e1) == s1;
    assert AfterSet(s1, 2, e2) == s2;
    assert AfterSend(s2, 2) == s3;
    assert AfterSend(s3, 1) == s4;
    assert CanDo(START, Set(1, e1)) && s1 == After(START, Set(1, e1));
    assert CanDo(s1, Set(2, e2)) && s2 == After(s1, Set(2, e2));
    assert CanDo(s2, Send(2)) && s3 == After(s2, Send(2));
    assert CanDo(s3, Send(1)) && s4 == After(s3, Send(1));
    run := [START, s1, s2, s3, s4];
  }
}
