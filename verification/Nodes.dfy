/** Node identifiers and lists of them. */
module Nodes {
  /** Node identifiers are 32-bit. */
  type NodeId = x: nat | x < 0x1_0000_0000

  ghost function Elements(ids: seq<NodeId>): (r: set<NodeId>) {
    set x | x in ids
  }

  ghost predicate Distinct(ids: seq<NodeId>) {
    forall i, j :: 0 <= i < j < |ids| ==> ids[i] != ids[j]
  }

  lemma {:induction false} DistinctCount(ids: seq<NodeId>)
    requires Distinct(ids)
    ensures |Elements(ids)| == |ids|
    decreases |ids|
  {
    if ids != [] {
      var n := |ids| - 1;
      DistinctCount(ids[..n]);
      assert Elements(ids) == Elements(ids[..n]) + {ids[n]};
      assert ids[n] !in Elements(ids[..n]);
    }
  }

  /** A subset of the same size is the whole set. */
  lemma FullSubset(a: set<NodeId>, b: set<NodeId>)
    requires a <= b && |b| <= |a|
    ensures a == b
  {
    assert b == a + (b - a);
    assert |b| == |a| + |b - a|;
  }
}
