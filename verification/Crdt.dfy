/** The last-write-wins register: `src/state/crdt.rs`. */
module Crdt {
  import opened LexOrder

  type Key = string
  type NodeId = string

  datatype LwwValue = LwwValue(value: string, timestamp: nat, nodeId: NodeId)

  /** The register merge: the later timestamp wins, then the larger node id; a full tie
      keeps the left argument. */
  function Merge(a: LwwValue, b: LwwValue): LwwValue
  {
    if a.timestamp > b.timestamp then a
    else if a.timestamp < b.timestamp then b
    else if LexLe(b.nodeId, a.nodeId) then a
    else b
  }

  predicate IsDominatedBy(self: LwwValue, incoming: LwwValue)
  {
    Merge(self, incoming) != self
  }

  // The order on tags (timestamp, node id) that the merge takes the maximum of.

  predicate TagLe(a: LwwValue, b: LwwValue)
  {
    a.timestamp < b.timestamp || (a.timestamp == b.timestamp && LexLe(a.nodeId, b.nodeId))
  }

  predicate TagLt(a: LwwValue, b: LwwValue)
  {
    TagLe(a, b) && !TagLe(b, a)
  }

  predicate SameTag(a: LwwValue, b: LwwValue)
  {
    a.timestamp == b.timestamp && a.nodeId == b.nodeId
  }

  /** Tags form a total preorder whose ties are exactly the equal tags. */
  lemma TagOrder(a: LwwValue, b: LwwValue, c: LwwValue)
    ensures TagLe(a, b) || TagLe(b, a)
    ensures TagLe(a, b) && TagLe(b, a) <==> SameTag(a, b)
    ensures TagLe(a, b) && TagLe(b, c) ==> TagLe(a, c)
    ensures TagLt(a, b) && TagLe(b, c) ==> TagLt(a, c)
    ensures TagLe(a, b) && TagLt(b, c) ==> TagLt(a, c)
  {
    LexIsTotalOrder(a.nodeId, b.nodeId, c.nodeId);
    LexIsTotalOrder(b.nodeId, c.nodeId, a.nodeId);
    LexIsTotalOrder(c.nodeId, a.nodeId, b.nodeId);
  }

  lemma TagTransitive(a: LwwValue, b: LwwValue, c: LwwValue)
    requires TagLe(a, b) && TagLe(b, c)
    ensures TagLe(a, c)
  {
    TagOrder(a, b, c);
  }

  lemma TagTotal(a: LwwValue, b: LwwValue)
    ensures TagLe(a, a)
    ensures TagLe(a, b) || TagLe(b, a)
    ensures TagLt(a, b) <==> !TagLe(b, a)
  {
    TagOrder(a, b, a);
    TagOrder(a, a, b);
  }

  /** The merge is the tag maximum, and keeps the left side exactly when the right one is
      not above it. */
  lemma MergeIsMaximum(a: LwwValue, b: LwwValue)
    ensures Merge(a, b) == a || Merge(a, b) == b
    ensures TagLe(a, Merge(a, b)) && TagLe(b, Merge(a, b))
    ensures Merge(a, b) == a <==> TagLe(b, a)
    ensures Merge(a, b) != a <==> TagLt(a, b)
  {
    TagTotal(a, b);
    TagTotal(b, a);
  }

  /** Which of two values wins: the later timestamp; at equal timestamps the larger node id, where
      a proper prefix is smaller and otherwise the first differing character decides; and the left
      one when both agree. */
  lemma MergeWinner(a: LwwValue, b: LwwValue)
    ensures a.timestamp > b.timestamp ==> Merge(a, b) == a
    ensures a.timestamp < b.timestamp ==> Merge(a, b) == b
    ensures a.timestamp == b.timestamp && a.nodeId == b.nodeId ==> Merge(a, b) == a
    ensures a.timestamp == b.timestamp && a.nodeId != b.nodeId ==>
              var x, y := a.nodeId, b.nodeId;
              Merge(a, b) ==
              if x <= y || exists i :: 0 <= i < |x| && i < |y| && x[..i] == y[..i] && x[i] < y[i] then b else a
  {
    LexIsTotalOrder(a.nodeId, b.nodeId, a.nodeId);
    LexLeIff(a.nodeId, b.nodeId);
  }

  /** Commutativity, which the documentation claims for all values, holds exactly when
      equal tags mean equal values. */
  lemma MergeCommutesIff(a: LwwValue, b: LwwValue)
    ensures Merge(a, b) == Merge(b, a) <==> (SameTag(a, b) ==> a == b)
  {
    TagOrder(a, b, a);
  }

  lemma MergeNotCommutative()
    ensures exists a, b :: Merge(a, b) != Merge(b, a)
  {
    var a, b := LwwValue("x", 1, "n"), LwwValue("y", 1, "n");
    MergeCommutesIff(a, b);
    assert Merge(a, b) != Merge(b, a);
  }

  /** Associativity and idempotence hold for all values, ties included. */
  lemma MergeAssociative(a: LwwValue, b: LwwValue, c: LwwValue)
    ensures Merge(a, Merge(b, c)) == Merge(Merge(a, b), c)
    ensures Merge(a, a) == a
  {
    LexIsTotalOrder(a.nodeId, b.nodeId, c.nodeId);
    LexIsTotalOrder(b.nodeId, c.nodeId, a.nodeId);
    LexIsTotalOrder(c.nodeId, a.nodeId, b.nodeId);
    LexIsTotalOrder(c.nodeId, b.nodeId, a.nodeId);
  }

  /** `is_dominated_by` says that the incoming value's tag is strictly larger; so it never
      holds both ways. */
  lemma DominationIsStrictOrder(a: LwwValue, b: LwwValue, c: LwwValue)
    ensures IsDominatedBy(a, b) <==> TagLt(a, b)
    ensures !(IsDominatedBy(a, b) && IsDominatedBy(b, a))
    ensures IsDominatedBy(a, b) && IsDominatedBy(b, c) ==> IsDominatedBy(a, c)
  {
    MergeIsMaximum(a, b);
    MergeIsMaximum(b, a);
    MergeIsMaximum(b, c);
    MergeIsMaximum(a, c);
    TagOrder(a, b, c);
  }
}
