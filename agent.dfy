/**
 * The two places where the native agent hands branch data to the JVM side:
 * `stopTrace`, which flattens the tracer's counted jumps into a long array of
 * 5-long records, and `markNonBranches`, which looks at the bytecode of every
 * jump inside one method and blanks out the records that are not real
 * branches (an instruction simply falling through to the next one).
 * JVMTI is not modelled: the bytecode of a method is an input function.
 */
module Agent {
  import opened Wrappers
  import opened JavaInts
  import opened Insn
  import opened TracerState
  import opened TraceResult
  import opened TracerHelper

  // ----------------------------------------------------------- stopTrace

  /** The five longs written for one counted tuple, in the order the agent writes them. */
  function Record(t: BranchTuple, hits: int): (r: seq<int>)
    ensures |r| == 5
  {
    [t.fromMethodId, t.fromLocation, t.toMethodId, t.toLocation, hits]
  }

  /** The tuples in the order the map hands them out, five longs each. */
  function Flattened(order: seq<BranchTuple>, counts: map<BranchTuple, int>): (r: seq<int>)
    requires forall t :: t in order ==> t in counts
    ensures |r| == 5 * |order|
    decreases |order|
  {
    if order == [] then []
    else
      var n := |order| - 1;
      Flattened(order[..n], counts) + Record(order[n], counts[order[n]])
  }

  /** The five longs of the k-th tuple sit at 5k through 5k + 4. */
  lemma {:induction false} FlattenedAt(order: seq<BranchTuple>, counts: map<BranchTuple, int>, k: int)
    requires forall t :: t in order ==> t in counts
    requires 0 <= k < |order|
    ensures var r, t := Flattened(order, counts), order[k];
      && r[5 * k] == t.fromMethodId && r[5 * k + 1] == t.fromLocation
      && r[5 * k + 2] == t.toMethodId && r[5 * k + 3] == t.toLocation
      && r[5 * k + 4] == counts[t]
    decreases |order|
  {
    var n := |order| - 1;
    if k < n {
      FlattenedAt(order[..n], counts, k);
      assert order[..n][k] == order[k];
    }
  }

  /** An iteration order of a map: each key exactly once. */
  ghost predicate EnumeratesKeys(order: seq<BranchTuple>, counts: map<BranchTuple, int>)
  {
    && (forall t :: t in order <==> t in counts)
    && (forall k, l :: 0 <= k < l < |order| ==> order[k] != order[l])
  }

  /**
   * `stopTrace` without JVMTI: an array of five longs per counted tuple,
   * filled through a running index. The order in which the hash map yields
   * its entries is a parameter.
   */
  method StopTrace(tracer: Tracer, order: seq<BranchTuple>) returns (longs: array<int>)
    requires EnumeratesKeys(order, tracer.branchTuples)
    ensures fresh(longs)
    ensures longs.Length == 5 * |tracer.branchTuples|
    ensures longs[..] == Flattened(order, tracer.branchTuples)
  {
    DistinctEnumerationSize(order, tracer.branchTuples);
    var counts := tracer.branchTuples;
    longs := new int[|counts| * 5];
    ghost var spec := Flattened(order, counts);
    var index := -1;
    var k := 0;
    while k < |order|
      invariant 0 <= k <= |order|
      invariant index == 5 * k - 1
      invariant forall j :: 0 <= j <= index ==> longs[j] == spec[j]
    {
      var t := order[k];
      var hits := counts[t];
      index := index + 1;
      longs[index] := t.fromMethodId;
      index := index + 1;
      longs[index] := t.fromLocation;
      index := index + 1;
      longs[index] := t.toMethodId;
      index := index + 1;
      longs[index] := t.toLocation;
      index := index + 1;
      longs[index] := hits;
      FlattenedAt(order, counts, k);
      k := k + 1;
    }
    assert longs[..] == spec;
  }

  /** A duplicate-free listing of a map's keys is as long as the map. */
  lemma DistinctEnumerationSize(order: seq<BranchTuple>, counts: map<BranchTuple, int>)
    requires EnumeratesKeys(order, counts)
    ensures |order| == |counts|
  {
    var keys := set t | t in order;
    assert keys == counts.Keys;
    DistinctSeqCard(order);
  }

  lemma {:induction false} DistinctSeqCard<T>(s: seq<T>)
    requires forall k, l :: 0 <= k < l < |s| ==> s[k] != s[l]
    ensures |set t | t in s| == |s|
    decreases |s|
  {
    if s != [] {
      var n := |s| - 1;
      DistinctSeqCard(s[..n]);
      var before := set t | t in s[..n];
      assert (set t | t in s) == before + {s[n]};
      assert s[n] !in before;
    }
  }

  /**
   * Decoding the array `stopTrace` produces gives back every counted tuple, in
   * the same order, with its hit count (a Java `Int`, so widening to a long
   * and truncating back changes nothing).
   */
  lemma StopTraceRoundTrip(order: seq<BranchTuple>, counts: map<BranchTuple, int>)
    requires forall t :: t in order ==> t in counts
    requires forall t :: t in counts ==> IsInt(counts[t])
    ensures var r := BranchLongsToBranches(Flattened(order, counts));
      && r.Some? && |r.value| == |order|
      && forall k :: 0 <= k < |order| ==>
           var t := order[k];
           r.value[k] == Branch(t.fromMethodId, t.fromLocation, t.toMethodId, t.toLocation, counts[t])
  {
    var longs := Flattened(order, counts);
    var r := BranchLongsToBranches(longs);
    forall k | 0 <= k < |order|
      ensures r.value[k] == Branch(order[k].fromMethodId, order[k].fromLocation, order[k].toMethodId,
                                   order[k].toLocation, counts[order[k]])
    {
      FlattenedAt(order, counts, k);
    }
  }

  /** Every count a tracer keeps is a Java `Int`, from the first step on. */
  lemma ReplayCountsAreInts(events: seq<Event>)
    ensures forall t :: t in Replay(events).branchTuples ==> IsInt(Replay(events).branchTuples[t])
  {
    forall t | t in Replay(events).branchTuples
      ensures IsInt(Replay(events).branchTuples[t])
    {
      ReplayCounts(events, t);
    }
  }

  // ----------------------------------------------------- markNonBranches

  /**
   * What `markNonBranches` needs of its input: a tuple inside one method
   * starts at a real bytecode index (a negative one would be read outside the
   * method's bytecode by native code).
   */
  predicate SameMethodLocationsNonNegative(longs: seq<int>)
  {
    forall i :: 0 <= i && i + 5 <= |longs| && i % 5 == 0 && longs[i] == longs[i + 2] ==> 0 <= longs[i + 1]
  }

  /**
   * Whether a recorded jump is a real branch: it goes from one method to
   * another, or it starts at a branching instruction that either has no fixed
   * size (the switches) or did not fall through to the instruction right
   * after it. The opcode is the unsigned value of the byte at the from
   * location; a location past the end of the bytecode is not a branch (the
   * agent only ever sees non-negative locations here, see
   * `SameMethodLocationsNonNegative`).
   */
  predicate IsRealBranch(fromMethodId: int, fromLocation: int, toMethodId: int, toLocation: int,
                         code: int -> seq<bv8>)
  {
    fromMethodId != toMethodId ||
    var bytes := code(fromMethodId);
    && 0 <= fromLocation < |bytes|
    && var insn := ByOpcode(UnsignedByte(bytes[fromLocation]));
    && insn.Some?
    && Branches(insn.value)
    && (FixedSize(insn.value).None? || fromLocation + FixedSize(insn.value).value != toLocation)
  }

  /** A byte read as unsigned, as `toInt() and 0xFF` does. */
  function UnsignedByte(b: bv8): (r: int)
    ensures 0 <= r < 0x100
  {
    b as int
  }

  /** Whether the record starting at i is kept. */
  predicate KeepsRecord(longs: seq<int>, i: int, code: int -> seq<bv8>)
    requires 0 <= i && i + 5 <= |longs|
  {
    IsRealBranch(longs[i], longs[i + 1], longs[i + 2], longs[i + 3], code)
  }

  /** The array after `markNonBranches`: each record kept whole or overwritten with five -1s. */
  function Marked(longs: seq<int>, code: int -> seq<bv8>): (r: seq<int>)
    requires |longs| % 5 == 0
    ensures |r| == |longs|
  {
    seq(|longs|, j requires 0 <= j < |longs| =>
      ChunkOf(j);
      if KeepsRecord(longs, j - j % 5, code) then longs[j] else -1)
  }

  /** The record that long j belongs to starts at j - j % 5. */
  lemma ChunkOf(j: int)
    requires 0 <= j
    ensures var i := j - j % 5; 0 <= i <= j < i + 5 && i % 5 == 0
  {
  }

  lemma ChunkStart(i: int, j: int)
    requires 0 <= i && i % 5 == 0 && i <= j < i + 5
    ensures j - j % 5 == i
  {
  }

  /**
   * `markNonBranches`: an empty array is left alone, a length that is not a
   * multiple of 5 is rejected, and otherwise every record that is not a real
   * branch is overwritten with -1s in place.
   */
  method MarkNonBranches(a: array<int>, code: int -> seq<bv8>) returns (ok: bool)
    requires SameMethodLocationsNonNegative(a[..])
    modifies a
    ensures ok <==> a.Length % 5 == 0
    ensures ok ==> a[..] == Marked(old(a[..]), code)
    ensures !ok ==> a[..] == old(a[..])
  {
    var len := a.Length;
    if len == 0 {
      return true;
    }
    if len % 5 != 0 {
      return false;
    }
    ghost var orig := a[..];
    ghost var marked := Marked(orig, code);
    var i := 0;
    ghost var records := 0;
    while i < len
      invariant 0 <= i <= len && i == 5 * records
      invariant forall j :: 0 <= j < i ==> a[j] == marked[j]
      invariant forall j :: i <= j < len ==> a[j] == orig[j]
    {
      assert i % 5 == 0;
      MarkRecord(a, i, code, orig);
      i := i + 5;
      records := records + 1;
    }
    assert a[..] == marked;
    return true;
  }

  /** The body of the loop: the record at i is judged and, unless kept, overwritten with -1s. */
  method MarkRecord(a: array<int>, i: int, code: int -> seq<bv8>, ghost orig: seq<int>)
    requires 0 <= i && i % 5 == 0 && i + 5 <= a.Length && |orig| == a.Length && a.Length % 5 == 0
    requires SameMethodLocationsNonNegative(orig)
    requires forall j :: i <= j < i + 5 ==> a[j] == orig[j]
    modifies a
    ensures forall j :: 0 <= j < a.Length && !(i <= j < i + 5) ==> a[j] == old(a[j])
    ensures forall j :: i <= j < i + 5 ==> a[j] == Marked(orig, code)[j]
  {
    var keep := JudgeRecord(a, i, code);
    assert keep == KeepsRecord(orig, i, code);
    if !keep {
      a[i] := -1;
      a[i + 1] := -1;
      a[i + 2] := -1;
      a[i + 3] := -1;
      a[i + 4] := -1;
    }
    forall j | i <= j < i + 5
      ensures a[j] == Marked(orig, code)[j]
    {
      ChunkStart(i, j);
    }
  }

  /** Whether the record at i survives. */
  method JudgeRecord(a: array<int>, i: int, code: int -> seq<bv8>) returns (keep: bool)
    requires 0 <= i && i + 5 <= a.Length
    requires a[i] == a[i + 2] ==> 0 <= a[i + 1]
    ensures keep == IsRealBranch(a[i], a[i + 1], a[i + 2], a[i + 3], code)
  {
    if a[i] != a[i + 2] {
      return true;
    }
    var bytes := code(a[i]);
    var location := a[i + 1];
    if location < |bytes| {
      var insn := ByOpcode(UnsignedByte(bytes[location]));
      if insn.Some? && Branches(insn.value) {
        if FixedSize(insn.value).None? {
          return true;
        }
        if location + FixedSize(insn.value).value != a[i + 3] {
          return true;
        }
      }
    }
    return false;
  }

  /** The five longs of record k after marking. */
  lemma MarkedRecord(longs: seq<int>, code: int -> seq<bv8>, k: int)
    requires |longs| % 5 == 0
    requires 0 <= k && 5 * k + 5 <= |longs|
    ensures var m, keep := Marked(longs, code), KeepsRecord(longs, 5 * k, code);
      && m[5 * k] == (if keep then longs[5 * k] else -1)
      && m[5 * k + 1] == (if keep then longs[5 * k + 1] else -1)
      && m[5 * k + 2] == (if keep then longs[5 * k + 2] else -1)
      && m[5 * k + 3] == (if keep then longs[5 * k + 3] else -1)
      && m[5 * k + 4] == (if keep then longs[5 * k + 4] else -1)
  {
    forall j | 5 * k <= j < 5 * k + 5 {
      ChunkStart(5 * k, j);
    }
  }

  /** Record k of the marked array, decoded. */
  lemma MarkedRecordDecodes(longs: seq<int>, code: int -> seq<bv8>, k: int)
    requires |longs| % 5 == 0
    requires 0 <= k < |longs| / 5
    ensures var r := BranchLongsToBranches(Marked(longs, code)).value;
      r[k] == if KeepsRecord(longs, 5 * k, code) then ChunkAt(longs, 5 * k) else Branch(-1, -1, -1, -1, -1)
  {
    var m := Marked(longs, code);
    var r := BranchLongsToBranches(m).value;
    MarkedRecord(longs, code, k);
    assert r[k] == ChunkAt(m, 5 * k);
    if KeepsRecord(longs, 5 * k, code) {
      assert ChunkAt(m, 5 * k) == ChunkAt(longs, 5 * k);
    } else {
      assert Wrap32(-1) == -1;
      assert ChunkAt(m, 5 * k) == Branch(-1, -1, -1, -1, -1);
    }
  }

  /**
   * Decoding the marked array: record k is the original branch when it is a
   * real one and the all -1 sentinel otherwise, which the trace decoder drops
   * (see `TracerHelper.LongArrayBranchesFiltersSentinels`).
   */
  lemma MarkedDecodes(longs: seq<int>, code: int -> seq<bv8>)
    requires |longs| % 5 == 0
    ensures var r := BranchLongsToBranches(Marked(longs, code)).value;
      && |r| == |longs| / 5
      && forall k :: 0 <= k < |r| ==>
           r[k] == if KeepsRecord(longs, 5 * k, code) then ChunkAt(longs, 5 * k) else Branch(-1, -1, -1, -1, -1)
  {
    forall k | 0 <= k < |longs| / 5 {
      MarkedRecordDecodes(longs, code, k);
    }
  }

  /**
   * A conditional jump that fell through is not a branch: a same-method
   * record from an IFEQ at location l is kept exactly when it does not go to l + 3.
   */
  lemma FallThroughIsBlanked(methodId: int, fromLocation: int, toLocation: int, code: int -> seq<bv8>)
    requires 0 <= fromLocation < |code(methodId)|
    requires code(methodId)[fromLocation] as int == Opcode(IFEQ)
    ensures IsRealBranch(methodId, fromLocation, methodId, toLocation, code) <==> toLocation != fromLocation + 3
  {
    ShortJumpsBranchWithSizeThree(IFEQ);
  }
}
