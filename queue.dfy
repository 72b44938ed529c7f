/**
 * The byte-array input queue: test cases scored by size times run time, the
 * "favoured first" cull, the list-backed queue that culls lazily and numbers
 * what it hands out, the set-backed cache of seen trace fingerprints, and the
 * per-entry result counters.
 */
module Queue {
  import opened Wrappers
  import JavaInts
  import Sorting

  /** `TestCase`: the input, the per-branch hashes of its run and its run time in nanoseconds, both null before it has run. */
  datatype TestCase = TestCase(bytes: seq<bv8>, branchHashes: Option<seq<int>>, nanoTime: Option<int>)

  /** `score`: `bytes.size * nanoTime` in `Long` arithmetic, null for a case that has not run. */
  function Score(c: TestCase): (r: Option<int>)
    ensures r.None? <==> c.nanoTime.None?
    ensures r.Some? ==> JavaInts.IsLong(r.value)
    ensures c.nanoTime.Some? && JavaInts.IsLong(|c.bytes| * c.nanoTime.value) ==> r == Some(|c.bytes| * c.nanoTime.value)
  {
    match c.nanoTime
    case None => None
    case Some(t) => Some(JavaInts.Wrap64(|c.bytes| * t))
  }

  /**
   * `compareTo`: equal scores compare equal, a null score is greater than
   * any other, and two scores compare as `Long`s.  The source tests the boxed
   * scores with `===` first; two distinct boxes holding one value fall through
   * to `Long.compareTo`, which gives 0 as well.
   */
  function Compare(a: TestCase, b: TestCase): int
  {
    var sa, sb := Score(a), Score(b);
    if sa == sb then 0
    else if sa.None? then 1
    else if sb.None? then -1
    else if sa.value < sb.value then -1
    else if sa.value == sb.value then 0
    else 1
  }

  /** The sort key that orders cases as `compareTo` does: the score, or one above every `Long` for a null score. */
  function SortKey(c: TestCase): int
  {
    match Score(c)
    case None => JavaInts.LONG_MAX + 1
    case Some(s) => s
  }

  /** The comparison is exactly the order of the sort key, so sorting by the key is `sorted()`. */
  lemma CompareIsKeyOrder(a: TestCase, b: TestCase)
    ensures Compare(a, b) < 0 <==> SortKey(a) < SortKey(b)
    ensures Compare(a, b) == 0 <==> SortKey(a) == SortKey(b)
    ensures Compare(a, b) > 0 <==> SortKey(a) > SortKey(b)
  {
  }

  /** The branch hashes of a case as a set; none for a case that has not run. */
  function Hashes(c: TestCase): (r: set<int>)
    ensures c.branchHashes.Some? ==> forall h :: h in r <==> h in c.branchHashes.value
    ensures c.branchHashes.None? ==> r == {}
  {
    match c.branchHashes
    case None => {}
    case Some(hs) => set h | h in hs
  }

  /** Every branch hash of the cases. */
  function AllHashes(s: seq<TestCase>): set<int>
  {
    if s == [] then {} else Hashes(s[0]) + AllHashes(s[1..])
  }

  /** `branchHashes != null && seen.addAll(branchHashes)`: the case has run and adds a hash not yet seen. */
  predicate Novel(c: TestCase, seen: set<int>)
  {
    c.branchHashes.Some? && !(Hashes(c) <= seen)
  }

  /**
   * `partition` over the sorted cases with the seen set threaded through:
   * `addAll` runs for every case that has run, favoured or not.
   */
  function Partition(s: seq<TestCase>, seen: set<int>): (r: (seq<TestCase>, seq<TestCase>))
    ensures |r.0| + |r.1| == |s|
  {
    if s == [] then ([], [])
    else
      var c := s[0];
      var rest := Partition(s[1..], seen + Hashes(c));
      if Novel(c, seen) then ([c] + rest.0, rest.1) else (rest.0, [c] + rest.1)
  }

  /** `culled(cases)`: the cases sorted by score, favoured ones first. */
  function Culled(cases: seq<TestCase>): seq<TestCase>
  {
    var split := Partition(Sorting.SortBy(cases, SortKey), {});
    split.0 + split.1
  }

  lemma AllHashesCons(c: TestCase, s: seq<TestCase>)
    ensures AllHashes([c] + s) == Hashes(c) + AllHashes(s)
  {
    assert ([c] + s)[0] == c && ([c] + s)[1..] == s;
  }

  lemma {:induction false} PartitionPermutation(s: seq<TestCase>, seen: set<int>)
    ensures multiset(Partition(s, seen).0) + multiset(Partition(s, seen).1) == multiset(s)
    decreases |s|
  {
    if s != [] {
      PartitionPermutation(s[1..], seen + Hashes(s[0]));
      assert s == [s[0]] + s[1..];
    }
  }

  /** Both parts keep the order of the input. */
  lemma {:induction false} PartitionSorted(s: seq<TestCase>, seen: set<int>)
    requires Sorting.SortedBy(s, SortKey)
    ensures Sorting.SortedBy(Partition(s, seen).0, SortKey) && Sorting.SortedBy(Partition(s, seen).1, SortKey)
    decreases |s|
  {
    if s != [] {
      var rest := Partition(s[1..], seen + Hashes(s[0]));
      SortedTail(s, SortKey);
      PartitionSorted(s[1..], seen + Hashes(s[0]));
      PartitionPermutation(s[1..], seen + Hashes(s[0]));
      SortedConsPart(s, rest.0, rest.1, SortKey);
      SortedConsPart(s, rest.1, rest.0, SortKey);
    }
  }

  lemma SortedTail<T>(s: seq<T>, key: T -> int)
    requires s != [] && Sorting.SortedBy(s, key)
    ensures Sorting.SortedBy(s[1..], key)
  {
  }

  /** The head of a sorted sequence, put before a sorted part of its tail, keeps the part sorted. */
  lemma SortedConsPart<T>(s: seq<T>, part: seq<T>, other: seq<T>, key: T -> int)
    requires s != [] && Sorting.SortedBy(s, key) && Sorting.SortedBy(part, key)
    requires multiset(part) + multiset(other) == multiset(s[1..])
    ensures Sorting.SortedBy([s[0]] + part, key)
  {
    forall x | x in part
      ensures key(s[0]) <= key(x)
    {
      assert x in multiset(s[1..]);
      var i :| 0 <= i < |s[1..]| && s[1..][i] == x;
      assert s[1 + i] == x;
    }
    var r := [s[0]] + part;
    forall i, j | 0 <= i < j < |r|
      ensures key(r[i]) <= key(r[j])
    {
      assert r[j] == part[j - 1];
      if i > 0 {
        assert r[i] == part[i - 1];
      } else {
        assert r[j] in part;
      }
    }
  }

  /**
   * Every favoured case has run and adds a hash that neither the seen set nor
   * the favoured cases before it hold.
   */
  lemma {:induction false} PartitionNovelty(s: seq<TestCase>, seen: set<int>)
    ensures forall c :: c in Partition(s, seen).0 ==> c.branchHashes.Some?
    ensures forall k :: 0 <= k < |Partition(s, seen).0| ==>
      !(Hashes(Partition(s, seen).0[k]) <= seen + AllHashes(Partition(s, seen).0[..k]))
    decreases |s|
  {
    if s != [] {
      var c := s[0];
      var seen' := seen + Hashes(c);
      PartitionNovelty(s[1..], seen');
      var rest := Partition(s[1..], seen');
      var f := Partition(s, seen).0;
      if Novel(c, seen) {
        assert f == [c] + rest.0;
        forall k | 1 <= k < |f|
          ensures !(Hashes(f[k]) <= seen + AllHashes(f[..k]))
        {
          assert f[..k] == [c] + rest.0[..k - 1];
          AllHashesCons(c, rest.0[..k - 1]);
          assert f[k] == rest.0[k - 1];
        }
        assert f[..0] == [];
      } else {
        assert seen' == seen;
      }
    }
  }

  /** The favoured cases, with the seen set, hold every hash of every case. */
  lemma {:induction false} PartitionCover(s: seq<TestCase>, seen: set<int>)
    ensures seen + AllHashes(s) == seen + AllHashes(Partition(s, seen).0)
    decreases |s|
  {
    if s != [] {
      var c := s[0];
      var seen' := seen + Hashes(c);
      PartitionCover(s[1..], seen');
      var rest := Partition(s[1..], seen');
      if Novel(c, seen) {
        AllHashesCons(c, rest.0);
      }
    }
  }

  /**
   * Where `partition` puts each case: with the favoured ones exactly when it
   * has run and adds a hash that neither the seen set nor any case before it
   * holds, and with the rest otherwise.
   */
  lemma {:induction false} PartitionPlacement(s: seq<TestCase>, seen: set<int>)
    ensures forall k :: 0 <= k < |s| && Novel(s[k], seen + AllHashes(s[..k])) ==> s[k] in Partition(s, seen).0
    ensures forall k :: 0 <= k < |s| && !Novel(s[k], seen + AllHashes(s[..k])) ==> s[k] in Partition(s, seen).1
    decreases |s|
  {
    if s != [] {
      var c := s[0];
      var seen' := seen + Hashes(c);
      PartitionPlacement(s[1..], seen');
      var r := Partition(s, seen);
      var rest := Partition(s[1..], seen');
      assert forall x :: x in rest.0 ==> x in r.0;
      assert forall x :: x in rest.1 ==> x in r.1;
      forall k | 0 <= k < |s|
        ensures Novel(s[k], seen + AllHashes(s[..k])) ==> s[k] in r.0
        ensures !Novel(s[k], seen + AllHashes(s[..k])) ==> s[k] in r.1
      {
        if k == 0 {
          assert seen + AllHashes(s[..0]) == seen;
        } else {
          assert s[..k] == [c] + s[1..][..k - 1];
          AllHashesCons(c, s[1..][..k - 1]);
          assert seen + AllHashes(s[..k]) == seen' + AllHashes(s[1..][..k - 1]);
          assert s[k] == s[1..][k - 1];
        }
      }
    }
  }

  /** `culled` is a permutation of its input. */
  lemma CulledPermutation(cases: seq<TestCase>)
    ensures multiset(Culled(cases)) == multiset(cases)
  {
    Sorting.SortBySortedPermutation(cases, SortKey);
    PartitionPermutation(Sorting.SortBy(cases, SortKey), {});
  }

  /**
   * `culled` returns the favoured cases, in score order, then the rest, in
   * score order; a case is favoured when it has run and adds a branch hash
   * none of the favoured cases before it has, and the favoured cases hold
   * every branch hash of the queue.  Conversely, a case that has run and
   * adds a hash none of the cases before it in score order holds is
   * favoured, and any other case is not.
   */
  lemma CulledSpec(cases: seq<TestCase>)
    ensures var split := Partition(Sorting.SortBy(cases, SortKey), {});
      && Culled(cases) == split.0 + split.1
      && Sorting.SortedBy(split.0, SortKey) && Sorting.SortedBy(split.1, SortKey)
      && (forall c :: c in split.0 ==> c.branchHashes.Some?)
      && (forall k :: 0 <= k < |split.0| ==> !(Hashes(split.0[k]) <= AllHashes(split.0[..k])))
      && AllHashes(cases) == AllHashes(split.0)
    ensures var sorted := Sorting.SortBy(cases, SortKey);
      && (forall k :: 0 <= k < |sorted| && Novel(sorted[k], AllHashes(sorted[..k])) ==> sorted[k] in Partition(sorted, {}).0)
      && (forall k :: 0 <= k < |sorted| && !Novel(sorted[k], AllHashes(sorted[..k])) ==> sorted[k] in Partition(sorted, {}).1)
  {
    var sorted := Sorting.SortBy(cases, SortKey);
    Sorting.SortBySortedPermutation(cases, SortKey);
    PartitionSorted(sorted, {});
    PartitionNovelty(sorted, {});
    PartitionCover(sorted, {});
    PartitionPlacement(sorted, {});
    var split := Partition(sorted, {});
    assert {} + AllHashes(sorted) == AllHashes(sorted);
    assert {} + AllHashes(split.0) == AllHashes(split.0);
    AllHashesPermutation(sorted, cases);
    forall k | 0 <= k < |split.0|
      ensures !(Hashes(split.0[k]) <= AllHashes(split.0[..k]))
    {
      assert {} + AllHashes(split.0[..k]) == AllHashes(split.0[..k]);
    }
  }

  lemma AllHashesMember(s: seq<TestCase>, h: int)
    ensures h in AllHashes(s) <==> exists c :: c in s && h in Hashes(c)
    decreases |s|
  {
    if s != [] {
      AllHashesMember(s[1..], h);
      assert s == [s[0]] + s[1..];
    }
  }

  /** The hashes of a queue do not depend on its order. */
  lemma AllHashesPermutation(a: seq<TestCase>, b: seq<TestCase>)
    requires multiset(a) == multiset(b)
    ensures AllHashes(a) == AllHashes(b)
  {
    forall h
      ensures h in AllHashes(a) <==> h in AllHashes(b)
    {
      AllHashesMember(a, h);
      AllHashesMember(b, h);
      if exists c :: c in a && h in Hashes(c) {
        var c :| c in a && h in Hashes(c);
        assert c in multiset(b);
      }
      if exists c :: c in b && h in Hashes(c) {
        var c :| c in b && h in Hashes(c);
        assert c in multiset(a);
      }
    }
  }

  // ----------------------------------------------------------- entries

  /** `QueueEntry`: a dequeued input and its number, with totals over the results of its candidates. */
  class QueueEntry {
    const bytes: seq<bv8>
    /** Negative for the initial values. */
    const dequeuedIndex: int
    var totalNanoTime: int
    var totalBranchCount: int
    var resultCount: int

    constructor (bytes: seq<bv8>, dequeuedIndex: int)
      ensures this.bytes == bytes && this.dequeuedIndex == dequeuedIndex
      ensures totalNanoTime == 0 && totalBranchCount == 0 && resultCount == 0
    {
      this.bytes := bytes;
      this.dequeuedIndex := dequeuedIndex;
      totalNanoTime, totalBranchCount, resultCount := 0, 0, 0;
    }

    /** `applyResult`: the three `Long` totals grow by the run time, the branch count and one. */
    method ApplyResult(nanoTime: int, branchCount: nat)
      modifies this
      ensures totalNanoTime == JavaInts.Wrap64(old(totalNanoTime) + nanoTime)
      ensures totalBranchCount == JavaInts.Wrap64(old(totalBranchCount) + branchCount)
      ensures resultCount == JavaInts.Wrap64(old(resultCount) + 1)
    {
      totalNanoTime := JavaInts.Wrap64(totalNanoTime + nanoTime);
      totalBranchCount := JavaInts.Wrap64(totalBranchCount + branchCount);
      resultCount := JavaInts.Wrap64(resultCount + 1);
    }
  }

  // ------------------------------------------------------------- queue

  /** `ByteArrayInputQueue.ListBacked`, run by one thread. */
  class ListBacked {
    var queue: seq<TestCase>
    var enqueuedSinceLastDequeued: bool
    var queueCounter: int

    /** The list is taken as it is; numbering starts at its size. */
    constructor (list: seq<TestCase>)
      ensures queue == list && !enqueuedSinceLastDequeued && queueCounter == |list|
    {
      queue := list;
      enqueuedSinceLastDequeued := false;
      queueCounter := |list|;
    }

    /** `enqueue`: appended at the end, and the queue marked for a cull. */
    method Enqueue(testCase: TestCase)
      modifies this
      ensures queue == old(queue) + [testCase]
      ensures enqueuedSinceLastDequeued && queueCounter == old(queueCounter)
    {
      queue := queue + [testCase];
      enqueuedSinceLastDequeued := true;
    }

    /**
     * `cullAndDequeue`: nothing from an empty queue; otherwise the queue is
     * culled if anything was enqueued since the last dequeue, and its head is
     * handed out numbered with the counter, which moves on by one.
     */
    method CullAndDequeue() returns (r: Option<QueueEntry>)
      modifies this
      ensures old(queue) == [] ==> r.None? && unchanged(this)
      ensures old(queue) != [] ==>
        var q := if old(enqueuedSinceLastDequeued) then Culled(old(queue)) else old(queue);
        && r.Some? && fresh(r.value)
        && r.value.bytes == q[0].bytes && r.value.dequeuedIndex == old(queueCounter)
        && queue == q[1..] && multiset(old(queue)) == multiset(queue) + multiset{q[0]}
        && !enqueuedSinceLastDequeued
        && queueCounter == JavaInts.Wrap64(old(queueCounter) + 1)
    {
      if queue == [] {
        return None;
      }
      if enqueuedSinceLastDequeued {
        enqueuedSinceLastDequeued := false;
        Cull();
      }
      var entry := Pop();
      r := Some(entry);
    }

    /** `QueueEntry(queue.removeAt(0).bytes, queueCounter++)`. */
    method Pop() returns (entry: QueueEntry)
      requires queue != []
      modifies this
      ensures fresh(entry) && entry.bytes == old(queue)[0].bytes && entry.dequeuedIndex == old(queueCounter)
      ensures queue == old(queue)[1..] && multiset(old(queue)) == multiset(queue) + multiset{old(queue)[0]}
      ensures queueCounter == JavaInts.Wrap64(old(queueCounter) + 1)
      ensures enqueuedSinceLastDequeued == old(enqueuedSinceLastDequeued)
    {
      assert queue == [queue[0]] + queue[1..];
      entry := new QueueEntry(queue[0].bytes, queueCounter);
      queue := queue[1..];
      queueCounter := JavaInts.Wrap64(queueCounter + 1);
    }

    /** The queue replaced by its cull. */
    method Cull()
      modifies this
      ensures queue == Culled(old(queue)) && multiset(queue) == multiset(old(queue))
      ensures enqueuedSinceLastDequeued == old(enqueuedSinceLastDequeued) && queueCounter == old(queueCounter)
    {
      CulledPermutation(queue);
      queue := Culled(queue);
    }
  }

  // ------------------------------------------------------------ cache

  /** `BranchesHashCache.SetBacked`: the fingerprints seen so far. */
  class SetBacked {
    var seenBranchHashes: set<int>

    constructor (backingSet: set<int>)
      ensures seenBranchHashes == backingSet
    {
      seenBranchHashes := backingSet;
    }

    /** `checkUniqueAndStore`: `add` of the run's fingerprint, true exactly when it was not there before. */
    method CheckUniqueAndStore(stableBranchesHash: int) returns (unique: bool)
      modifies this
      ensures unique <==> stableBranchesHash !in old(seenBranchHashes)
      ensures seenBranchHashes == old(seenBranchHashes) + {stableBranchesHash}
    {
      unique := stableBranchesHash !in seenBranchHashes;
      seenBranchHashes := seenBranchHashes + {stableBranchesHash};
    }
  }
}
