/** The store as the object it is: `StateStore` of `src/state/store.rs`, each method from
    start to finish with no other thread in between.  EventLog.dfy covers the interleavings.
    The lock, and the reference-counted sharing of the inner state, are not modelled. */
module Store {
  import opened Crdt
  import opened StoreSpec
  import opened EventLog
  import opened Wrappers

  /** The events sent for reported keys: each key's value in the store as it is now. */
  function EventsFor(m: Entries, keys: seq<Key>): seq<Entry>
  {
    if |keys| == 0 then []
    else
      var last := keys[|keys| - 1];
      EventsFor(m, keys[..|keys| - 1]) + if last in m then [Entry(last, m[last])] else []
  }

  lemma {:induction false} EventsForFirst(m: Entries, keys: seq<Key>)
    requires |keys| > 0 && keys[0] in m
    ensures EventsFor(m, keys) == [Entry(keys[0], m[keys[0]])] + EventsFor(m, keys[1..])
  {
    if |keys| > 1 {
      var init := keys[..|keys| - 1];
      EventsForFirst(m, init);
      assert init[1..] == keys[1..][..|keys[1..]| - 1];
    }
  }

  /** One event for each key, in order, with the value the store holds of it. */
  lemma {:induction false} EventsForInOrder(m: Entries, keys: seq<Key>)
    requires forall k :: k in keys ==> k in m
    ensures |EventsFor(m, keys)| == |keys|
    ensures forall i :: 0 <= i < |keys| ==> EventsFor(m, keys)[i] == Entry(keys[i], m[keys[i]])
  {
    if |keys| > 0 {
      EventsForInOrder(m, keys[..|keys| - 1]);
    }
  }

  lemma ReportedAreHeld(m: Entries, d: StateDelta)
    ensures forall k :: k in UpdatedKeys(m, d) ==> k in MergeSeq(m, d)
  {
    forall k | k in UpdatedKeys(m, d)
      ensures k in MergeSeq(m, d)
    {
      ReportedIffChanged(m, d, k);
    }
  }

  lemma MergeReports(m: Entries, d: StateDelta)
    ensures exists ps :: ReportedAt(m, d, UpdatedKeys(m, d), ps)
    ensures var m', keys := MergeSeq(m, d), UpdatedKeys(m, d);
            && |EventsFor(m', keys)| == |keys|
            && forall i :: 0 <= i < |keys| ==> keys[i] in m' && EventsFor(m', keys)[i] == Entry(keys[i], m'[keys[i]])
  {
    var ps := ReportIsInOrder(m, d);
    ReportedAreHeld(m, d);
    EventsForInOrder(MergeSeq(m, d), UpdatedKeys(m, d));
  }

  /** With no other thread in between, the reads and sends after a merge send each reported
      key's value once, in order, and leave nothing to send. */
  lemma {:induction false} EmissionIsRun(s: LogState, id: nat, keys: seq<Key>) returns (run: seq<LogState>)
    requires id !in s.emitters && forall k :: k in keys ==> k in s.store
    ensures LogRun(run) && run[0] == s.(emitters := Continue(s.emitters, id, keys))
    ensures run[|run| - 1] == s.(log := s.log + EventsFor(s.store, keys))
    decreases |keys|
  {
    var s0 := s.(emitters := Continue(s.emitters, id, keys));
    if |keys| == 0 {
      assert s.emitters - {id} == s.emitters;
      assert s.log + [] == s.log;
      run := [s0];
    } else {
      var e := Entry(keys[0], s.store[keys[0]]);
      var s1 := s.(emitters := s.emitters[id := Sending(e, keys[1..])]);
      var next := s.(log := s.log + [e]);
      var s2 := next.(emitters := Continue(s.emitters, id, keys[1..]));
      assert CanDo(s0, Read(id)) && After(s0, Read(id)) == s1;
      assert CanDo(s1, Send(id)) && After(s1, Send(id)) == s2;
      EventsForFirst(s.store, keys);
      var rest := EmissionIsRun(next, id, keys[1..]);
      assert next.log + EventsFor(s.store, keys[1..]) == s.log + EventsFor(s.store, keys);
      run := Prepend(s0, s1, rest);
    }
  }

  /** A `merge_delta` with no other thread in between is a run of the event machine that ends
      with the store, the log and no more to send than before. */
  lemma MergeIsRun(s: LogState, id: nat, d: StateDelta) returns (run: seq<LogState>)
    requires id !in s.emitters
    ensures LogRun(run) && run[0] == s
    ensures run[|run| - 1] == LogState(MergeSeq(s.store, d),
                                       s.log + EventsFor(MergeSeq(s.store, d), UpdatedKeys(s.store, d)),
                                       s.emitters)
  {
    var m := MergeSeq(s.store, d);
    var updated := UpdatedKeys(s.store, d);
    ReportedAreHeld(s.store, d);
    var rest := EmissionIsRun(s.(store := m), id, updated);
    assert CanDo(s, EventLog.MergeDelta(id, d)) && After(s, EventLog.MergeDelta(id, d)) == rest[0];
    run := [s] + rest;
    forall i | 0 <= i < |run| - 1
      ensures LogNext(run[i], run[i + 1])
    {
      if i >= 1 {
        assert LogNext(rest[i - 1], rest[i]);
      }
    }
  }

  /** And so is a `set`. */
  lemma SetIsRun(s: LogState, id: nat, e: Entry) returns (run: seq<LogState>)
    requires id !in s.emitters
    ensures LogRun(run) && run[0] == s
    ensures var m := MergeEntry(s.store, e);
            run[|run| - 1] == LogState(m, s.log + [Entry(e.key, m[e.key])], s.emitters)
  {
    var m := MergeEntry(s.store, e);
    var mid := AfterSet(s, id, e);
    var end := AfterSend(mid, id);
    assert CanDo(s, EventLog.Set(id, e)) && mid == After(s, EventLog.Set(id, e));
    assert CanDo(mid, Send(id)) && end == After(mid, Send(id));
    assert end.emitters == s.emitters;
    run := [s, mid, end];
  }

  lemma Prepend(s0: LogState, s1: LogState, rest: seq<LogState>) returns (run: seq<LogState>)
    requires LogRun(rest) && LogNext(s0, s1) && LogNext(s1, rest[0])
    ensures LogRun(run) && run == [s0, s1] + rest
  {
    run := [s0, s1] + rest;
    forall i | 0 <= i < |run| - 1
      ensures LogNext(run[i], run[i + 1])
    {
      if i >= 2 {
        assert LogNext(rest[i - 2], rest[i - 1]);
      }
    }
  }

  /** Listing one more entry. */
  lemma EnumeratesMore(d: StateDelta, m: Entries, k: Key, v: LwwValue)
    requires Enumerates(d, m) && k !in m
    ensures Enumerates(d + [Entry(k, v)], m[k := v])
  {
    var d' := d + [Entry(k, v)];
    forall j | j in m
      ensures Entry(j, m[j]) in d'
    {
      assert Entry(j, m[j]) in d;
    }
    assert d'[|d|] == Entry(k, v);
  }

  class StateStore {
    const nodeId: NodeId
    var state: Entries
    /** Everything sent on the broadcast channel, oldest first. */
    var events: seq<Entry>

    constructor (nodeId: NodeId)
      ensures this.nodeId == nodeId && state == map[] && events == []
    {
      this.nodeId := nodeId;
      state := map[];
      events := [];
    }

    method Get(key: Key) returns (v: Option<LwwValue>)
      ensures v == if key in state then Some(state[key]) else None
    {
      v := if key in state then Some(state[key]) else None;
    }

    /** Every entry, in the map's own, unspecified, order. */
    method Snapshot() returns (d: StateDelta)
      ensures Enumerates(d, state)
    {
      d := [];
      var left := state.Keys;
      ghost var done: Entries := map[];
      while left != {}
        invariant left <= state.Keys
        invariant done == map k | k in state && k !in left :: state[k]
        invariant Enumerates(d, done)
        decreases left
      {
        var k :| k in left;
        EnumeratesMore(d, done, k, state[k]);
        d := d + [Entry(k, state[k])];
        left := left - {k};
        done := done[k := state[k]];
      }
      assert done == state;
    }

    /** Entries stamped strictly after `since`, in unspecified order. */
    method DeltaSince(since: nat) returns (d: StateDelta)
      ensures Enumerates(d, StoreSpec.DeltaSince(state, since))
    {
      d := [];
      var left := state.Keys;
      ghost var done: Entries := map[];
      while left != {}
        invariant left <= state.Keys
        invariant done == map k | k in state && k !in left && state[k].timestamp > since :: state[k]
        invariant Enumerates(d, done)
        decreases left
      {
        var k :| k in left;
        if state[k].timestamp > since {
          EnumeratesMore(d, done, k, state[k]);
          d := d + [Entry(k, state[k])];
          done := done[k := state[k]];
        }
        left := left - {k};
      }
      assert done == StoreSpec.DeltaSince(state, since);
    }

    method MaxTimestamp() returns (t: nat)
      ensures t == StoreSpec.MaxTimestamp(state)
      ensures forall k :: k in state ==> state[k].timestamp <= t
      ensures if state == map[] then t == 0 else exists k :: k in state && state[k].timestamp == t
    {
      t := 0;
      var left := state.Keys;
      while left != {}
        invariant left <= state.Keys
        invariant forall k :: k in state && k !in left ==> state[k].timestamp <= t
        invariant t == 0 || exists k :: k in state && state[k].timestamp == t
        decreases left
      {
        var k :| k in left;
        if state[k].timestamp > t {
          t := state[k].timestamp;
        }
        left := left - {k};
      }
      if t == 0 && state != map[] {
        var k :| k in state;
        assert state[k].timestamp == t;
      }
      MaxTimestampUnique(state, t);
    }

    /** A local write, stamped `now` by the node's clock. */
    method Set(key: Key, value: string, now: nat) returns (winner: LwwValue)
      modifies this
      ensures state == MergeEntry(old(state), Entry(key, LwwValue(value, now, nodeId)))
      ensures key in state && winner == state[key]
      ensures events == old(events) + [Entry(key, winner)]
      ensures forall k :: k != key ==> (k in state <==> k in old(state))
      ensures forall k :: k in old(state) && k != key ==> state[k] == old(state)[k]
      ensures Grows(old(state), state)
      ensures winner == LwwValue(value, now, nodeId) || (key in old(state) && winner == old(state)[key])
    {
      var incoming := LwwValue(value, now, nodeId);
      MergeEntryEffect(state, Entry(key, incoming));
      if key !in state {
        state := state[key := incoming];
        MergeIsMaximum(incoming, incoming);
      }
      state := state[key := Merge(state[key], incoming)];
      winner := state[key];
      events := events + [Entry(key, winner)];
    }

    /** Merge a delta from a peer; report the keys that changed, one mention per change. */
    method MergeDelta(delta: StateDelta) returns (updated: seq<Key>)
      modifies this
      ensures state == MergeSeq(old(state), delta)
      ensures updated == UpdatedKeys(old(state), delta)
      ensures events == old(events) + EventsFor(state, updated)
      ensures exists ps :: ReportedAt(old(state), delta, updated, ps)
      ensures |events| == |old(events)| + |updated|
      ensures forall i :: 0 <= i < |updated| ==>
                updated[i] in state && events[|old(events)| + i] == Entry(updated[i], state[updated[i]])
      ensures Grows(old(state), state)
    {
      updated := [];
      for i := 0 to |delta|
        invariant state == MergeSeq(old(state), delta[..i])
        invariant updated == UpdatedKeys(old(state), delta[..i])
        invariant events == old(events)
      {
        var key, incoming := delta[i].key, delta[i].value;
        assert delta[..i + 1][..i] == delta[..i];
        MergeEntryEffect(state, delta[i]);
        var winner := if key in state then Merge(state[key], incoming) else incoming;
        var changed := key !in state || state[key] != winner;
        if changed {
          state := state[key := winner];
          updated := updated + [key];
        }
      }
      assert delta[..|delta|] == delta;
      MergeSeqEffect(old(state), delta);
      for i := 0 to |updated|
        invariant state == MergeSeq(old(state), delta)
        invariant events == old(events) + EventsFor(state, updated[..i])
      {
        var key := updated[i];
        assert updated[..i + 1][..i] == updated[..i];
        var val := Get(key);
        if val.Some? {
          events := events + [Entry(key, val.value)];
        }
      }
      assert updated[..|updated|] == updated;
      MergeReports(old(state), delta);
    }
  }
}
