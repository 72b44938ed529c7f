/**
 * Coverage fingerprints: the decoded branches of one traced invocation, their
 * hit-count buckets, per-branch hashes and the hash of a whole trace.
 */
module TraceResult {
  import opened Wrappers
  import opened JavaInts
  import opened Sorting

  /** `TraceResult.Branch`: method ids and locations are longs, the hit count an int. */
  datatype Branch = Branch(fromMethodId: int, fromLocation: int, toMethodId: int, toLocation: int, hits: int)

  /**
   * `BranchWithResolvedMethods`.  Class and method names enter the fingerprint
   * only through their `String.hashCode`, so the model keeps just those
   * hashes; `None` is a null class or name.
   */
  datatype ResolvedBranch = ResolvedBranch(
    fromClassNameHash: Option<int>, fromNameHash: Option<int>,
    toClassNameHash: Option<int>, toNameHash: Option<int>,
    branch: Branch)

  predicate ValidBranch(b: Branch)
  {
    IsLong(b.fromMethodId) && IsLong(b.fromLocation) && IsLong(b.toMethodId) && IsLong(b.toLocation) && IsInt(b.hits)
  }

  predicate ValidResolved(r: ResolvedBranch)
  {
    ValidBranch(r.branch)
    && (r.fromClassNameHash.Some? ==> IsInt(r.fromClassNameHash.value))
    && (r.fromNameHash.Some? ==> IsInt(r.fromNameHash.value))
    && (r.toClassNameHash.Some? ==> IsInt(r.toClassNameHash.value))
    && (r.toNameHash.Some? ==> IsInt(r.toNameHash.value))
  }

  predicate IsPowerOfTwo(n: int)
    decreases if n < 1 then 0 else n
  {
    n == 1 || (n > 1 && n % 2 == 0 && IsPowerOfTwo(n / 2))
  }

  /**
   * `Branch.hitBucket`, AFL's buckets: 1, 2 and 3 stand for themselves,
   * 4..63 fall to the largest power of two not above them, 64..127 join
   * 32..63, and everything else (0, negatives, 128 and above) is 128.
   */
  function HitBucket(hits: int): (r: int)
    ensures 1 <= hits <= 3 ==> r == hits
    ensures 4 <= hits <= 127 ==> IsPowerOfTwo(r) && 4 <= r <= hits && (hits < 2 * r || r == 32)
    ensures 32 <= hits <= 127 ==> r == 32
    ensures (hits < 1 || hits > 127) ==> r == 128
  {
    if 1 <= hits <= 3 then hits
    else if 4 <= hits <= 7 then (assert IsPowerOfTwo(4) by { assert IsPowerOfTwo(2); } 4)
    else if 8 <= hits <= 15 then (assert IsPowerOfTwo(8) by { assert IsPowerOfTwo(4) by { assert IsPowerOfTwo(2); } } 8)
    else if 16 <= hits <= 31 then (PowersOfTwo(); 16)
    else if 32 <= hits <= 127 then (PowersOfTwo(); 32)
    else 128
  }

  lemma PowersOfTwo()
    ensures IsPowerOfTwo(16) && IsPowerOfTwo(32)
  {
    assert IsPowerOfTwo(2) && IsPowerOfTwo(4) && IsPowerOfTwo(8);
  }

  function NullableHash(h: Option<int>): int
  {
    match h
    case None => 0
    case Some(v) => v
  }

  /** The seven ints hashed by `stableHashCode(includeHitCount)`. */
  function HashedFields(r: ResolvedBranch, includeHitCount: bool): (fs: seq<int>)
    requires ValidResolved(r)
    ensures |fs| == 7 && forall i :: 0 <= i < 7 ==> IsInt(fs[i])
  {
    [ NullableHash(r.fromClassNameHash), NullableHash(r.fromNameHash), LongHash(r.branch.fromLocation),
      NullableHash(r.toClassNameHash), NullableHash(r.toNameHash), LongHash(r.branch.toLocation),
      if includeHitCount then HitBucket(r.branch.hits) else 0 ]
  }

  /** `BranchWithResolvedMethods.stableHashCode(includeHitCount)`. */
  function StableHashCode(r: ResolvedBranch, includeHitCount: bool): (h: int)
    requires ValidResolved(r)
    ensures IsInt(h)
  {
    ArrayHash(HashedFields(r, includeHitCount))
  }

  /** Hit counts that share a bucket give the same hash; without hit counts, the count never matters. */
  lemma StableHashCodeIgnoresHitsWithinBucket(r: ResolvedBranch, hits: int)
    requires ValidResolved(r) && IsInt(hits)
    ensures StableHashCode(r.(branch := r.branch.(hits := hits)), false) == StableHashCode(r, false)
    ensures HitBucket(hits) == HitBucket(r.branch.hits) ==>
      StableHashCode(r.(branch := r.branch.(hits := hits)), true) == StableHashCode(r, true)
  {
  }

  /** The sort key of `BranchWithResolvedMethods.compareTo`: the hash with hit counts. */
  function SortKey(r: ResolvedBranch): int
  {
    if ValidResolved(r) then StableHashCode(r, true) else 0
  }

  function HashWithoutHits(r: ResolvedBranch): int
  {
    if ValidResolved(r) then StableHashCode(r, false) else 0
  }

  /**
   * `TraceResult.stableBranchesHash(includeHitCounts)`: sort by the hash with
   * hit counts (whatever the flag), hash each branch under the flag, then
   * hash the resulting int array.
   */
  function StableBranchesHash(bs: seq<ResolvedBranch>, includeHitCounts: bool): (h: int)
    ensures IsInt(h)
  {
    ArrayHash(Keys(SortBy(bs, SortKey), if includeHitCounts then SortKey else HashWithoutHits))
  }

  /** With hit counts, the trace hash does not depend on the order in which branches were recorded. */
  lemma StableBranchesHashPermutationInvariant(a: seq<ResolvedBranch>, b: seq<ResolvedBranch>)
    requires multiset(a) == multiset(b)
    ensures StableBranchesHash(a, true) == StableBranchesHash(b, true)
  {
    SortedKeysPermutationInvariant(a, b, SortKey);
  }

  /** `TraceResult.filtered(pred)`: the branches satisfying pred, in their order. */
  function Filtered(bs: seq<ResolvedBranch>, pred: ResolvedBranch -> bool): (r: seq<ResolvedBranch>)
    ensures |r| <= |bs|
    ensures forall x :: x in r <==> x in bs && pred(x)
    decreases |bs|
  {
    if bs == [] then []
    else Filtered(bs[..|bs| - 1], pred) + (if pred(bs[|bs| - 1]) then [bs[|bs| - 1]] else [])
  }

  /** Filtering distributes over concatenation, so the kept branches stay in order. */
  lemma {:induction false} FilteredAppend(a: seq<ResolvedBranch>, b: seq<ResolvedBranch>, pred: ResolvedBranch -> bool)
    ensures Filtered(a + b, pred) == Filtered(a, pred) + Filtered(b, pred)
    decreases |b|
  {
    if b != [] {
      var b' := b[..|b| - 1];
      assert (a + b)[..|a + b| - 1] == a + b';
      assert (a + b)[|a + b| - 1] == b[|b| - 1];
      FilteredAppend(a, b', pred);
    } else {
      assert a + b == a;
    }
  }

  // ----------------------------------------------- decoding of the tracer

  /** The -1 sentinel the agent writes over a tuple that is not a branch. */
  predicate IsSentinel(b: Branch)
  {
    b.fromMethodId == -1 && b.fromLocation == -1
  }

  /** The branch in the 5-long chunk starting at i; hits is the fifth long truncated by `toInt()`. */
  function ChunkAt(longs: seq<int>, i: int): Branch
    requires 0 <= i && i + 5 <= |longs|
  {
    Branch(longs[i], longs[i + 1], longs[i + 2], longs[i + 3], Wrap32(longs[i + 4]))
  }

  /**
   * `LongArrayBranches.branches()`: the 5-long chunks in order, without the
   * sentinel ones.  A short last chunk cannot be destructured and throws, so
   * a length that is not a multiple of 5 gives `None`.
   */
  function LongArrayBranches(longs: seq<int>): (r: Option<seq<Branch>>)
    ensures r.Some? <==> |longs| % 5 == 0
    ensures r.Some? ==> forall b :: b in r.value ==> !IsSentinel(b)
    decreases |longs|
  {
    if |longs| % 5 != 0 then None
    else if longs == [] then Some([])
    else
      var n := |longs| - 5;
      var last := ChunkAt(longs, n);
      Some(LongArrayBranches(longs[..n]).value + (if IsSentinel(last) then [] else [last]))
  }

  /** Per-method lookups, applied only to non-negative ids. */
  function MethodInfo(methodId: int, classNameHash: int -> Option<int>, nameHash: int -> Option<int>): (r: (Option<int>, Option<int>))
    ensures methodId < 0 ==> r == (None, None)
  {
    if methodId < 0 then (None, None) else (classNameHash(methodId), nameHash(methodId))
  }

  /** `LongArrayBranches.branchesWithResolvedMethods`: each branch with the lookups of both of its methods. */
  function Resolve(bs: seq<Branch>, classNameHash: int -> Option<int>, nameHash: int -> Option<int>): (r: seq<ResolvedBranch>)
    ensures |r| == |bs|
    ensures forall i :: 0 <= i < |bs| ==>
      && r[i].branch == bs[i]
      && (r[i].fromClassNameHash, r[i].fromNameHash) == MethodInfo(bs[i].fromMethodId, classNameHash, nameHash)
      && (r[i].toClassNameHash, r[i].toNameHash) == MethodInfo(bs[i].toMethodId, classNameHash, nameHash)
    decreases |bs|
  {
    if bs == [] then []
    else
      var b := bs[|bs| - 1];
      var (fc, fn) := MethodInfo(b.fromMethodId, classNameHash, nameHash);
      var (tc, tn) := MethodInfo(b.toMethodId, classNameHash, nameHash);
      Resolve(bs[..|bs| - 1], classNameHash, nameHash) + [ResolvedBranch(fc, fn, tc, tn, b)]
  }
}
