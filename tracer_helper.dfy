/** `TracerHelper.branchLongsToBranchStream`: the agent's flat long array back into branches. */
module TracerHelper {
  import opened Wrappers
  import opened JavaInts
  import opened TraceResult

  /**
   * Every 5-long chunk becomes a branch, in order, with no sentinel
   * filtering; a short last chunk throws, giving `None`.
   */
  function BranchLongsToBranches(longs: seq<int>): (r: Option<seq<Branch>>)
    ensures r.Some? <==> |longs| % 5 == 0
    ensures r.Some? ==>
      && |r.value| == |longs| / 5
      && forall k :: 0 <= k < |r.value| ==> r.value[k] == ChunkAt(longs, 5 * k)
    decreases |longs|
  {
    if |longs| % 5 != 0 then None
    else if longs == [] then Some([])
    else
      var n := |longs| - 5;
      var prefix := BranchLongsToBranches(longs[..n]).value;
      assert forall k :: 0 <= k < |prefix| ==> ChunkAt(longs[..n], 5 * k) == ChunkAt(longs, 5 * k);
      Some(prefix + [ChunkAt(longs, n)])
  }

  /** The trace decoder is this one with the sentinel chunks filtered out. */
  lemma {:induction false} LongArrayBranchesFiltersSentinels(longs: seq<int>)
    requires |longs| % 5 == 0
    ensures LongArrayBranches(longs).value == NonSentinel(BranchLongsToBranches(longs).value)
    decreases |longs|
  {
    if longs != [] {
      var n := |longs| - 5;
      LongArrayBranchesFiltersSentinels(longs[..n]);
      var all := BranchLongsToBranches(longs).value;
      assert all == BranchLongsToBranches(longs[..n]).value + [ChunkAt(longs, n)];
      assert all[..|all| - 1] == BranchLongsToBranches(longs[..n]).value;
    }
  }

  /** The branches that are not sentinels, in order. */
  function NonSentinel(bs: seq<Branch>): (r: seq<Branch>)
    ensures forall b :: b in r <==> b in bs && !IsSentinel(b)
    decreases |bs|
  {
    if bs == [] then []
    else NonSentinel(bs[..|bs| - 1]) + (if IsSentinel(bs[|bs| - 1]) then [] else [bs[|bs| - 1]])
  }
}
