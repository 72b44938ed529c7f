/**
 * `ByteArrayParamGen`: the byte-array parameter generator.  It keeps a queue
 * of interesting inputs; each input dequeued is put through the fixed stages
 * and then havoc, and every candidate is handed out with a reference to the
 * entry it came from.  Results that reach a trace never seen before put their
 * input back into the queue.
 *
 * The configuration's random source is the `rand` oracle and the clock is a
 * parameter of the operations that read it.
 */
module Generator {
  import opened Wrappers
  import opened Bytes
  import opened JavaRandom
  import opened Havoc
  import opened Queue
  import Sorting
  import FlipStages
  import ValueStages
  import DictionaryStage
  import TraceResult
  import JavaInts

  /** `EntryParamRef<ByteArray>`: a candidate and the queue entry it was made from. */
  datatype EntryParamRef = EntryParamRef(value: seq<bv8>, entry: QueueEntry)

  /**
   * What `onResult` finds in its parameter slot of an execution result: one of
   * this generator's references (whose value may have been mapped to something
   * other than bytes, shown as `None`), a bare byte array, or anything else.
   */
  datatype ResultParam =
    | EntryRef(value: Option<seq<bv8>>, entry: QueueEntry)
    | RawBytes(bytes: seq<bv8>)
    | OtherValue

  /** The reference exactly as the generator handed it out and the invoker passed it back. */
  function AsResultParam(r: EntryParamRef): ResultParam
  {
    EntryRef(Some(r.value), r.entry)
  }

  /** The objects `onResult` may update: the entry behind a reference, if any. */
  function EntryOf(p: ResultParam): set<object>
  {
    if p.EntryRef? then {p.entry} else {}
  }

  // ------------------------------------------------------------ batches

  /** Each value paired with the same entry. */
  function Refs(values: seq<seq<bv8>>, entry: QueueEntry): (r: seq<EntryParamRef>)
    ensures |r| == |values|
    ensures forall i :: 0 <= i < |r| ==> r[i].value == values[i] && r[i].entry == entry
  {
    seq(|values|, i requires 0 <= i < |values| => EntryParamRef(values[i], entry))
  }

  /** The seven stages up to `stageArith8`, which any seed gets through, in the order they run. */
  ghost function StagesPrefix(buf: seq<bv8>, arithMax: int): seq<seq<bv8>>
  {
    FlipStages.FlipBitsStage(buf, 1) + FlipStages.FlipBitsStage(buf, 2) + FlipStages.FlipBitsStage(buf, 4)
    + FlipStages.FlipBytesStage(buf, 1) + FlipStages.FlipBytesStage(buf, 2) + FlipStages.FlipBytesStage(buf, 4)
    + ValueStages.StageOutput(ValueStages.Arith8, arithMax, buf)
  }

  /** `stageInteresting32` as written, or corrected to store the int itself big-endian. */
  function Interesting32Stage(asWritten: bool): ValueStages.Stage
  {
    if asWritten then ValueStages.Interesting32AsWritten else ValueStages.Interesting32
  }

  /** The five stages after `stageArith16` and before havoc, in the order they run. */
  ghost function StagesAfterArith16(buf: seq<bv8>, arithMax: int, sortedDictionary: seq<seq<bv8>>, asWritten: bool): seq<seq<bv8>>
  {
    ValueStages.StageOutput(ValueStages.Arith32, arithMax, buf)
    + ValueStages.StageOutput(ValueStages.Interesting8, arithMax, buf)
    + ValueStages.StageOutput(ValueStages.Interesting16, arithMax, buf)
    + ValueStages.StageOutput(Interesting32Stage(asWritten), arithMax, buf)
    + DictionaryStage.DictionaryStageOutput(buf, sortedDictionary)
  }

  /**
   * Everything the stages before havoc yield for a seed, in the order they
   * run.  As written this is what a seed of at least two bytes gets; a shorter
   * one gets `StagesPrefix` and then `stageArith16` throws.
   */
  ghost function FixedStages(buf: seq<bv8>, arithMax: int, sortedDictionary: seq<seq<bv8>>, asWritten: bool): seq<seq<bv8>>
  {
    StagesPrefix(buf, arithMax)
    + ValueStages.StageOutput(ValueStages.Arith16, arithMax, buf)
    + StagesAfterArith16(buf, arithMax, sortedDictionary, asWritten)
  }

  /** How many candidates `stageHavoc` yields. */
  function HavocCount(conf: Config): nat
  {
    if conf.havocCycles > 0 then conf.havocCycles else 0
  }

  /** Havoc outputs of an entry's bytes, each referring to the entry. */
  ghost predicate HavocRefs(conf: Config, entry: QueueEntry, refs: seq<EntryParamRef>)
  {
    forall i :: 0 <= i < |refs| ==> refs[i].entry == entry && HavocOutput(conf, entry.bytes, refs[i].value)
  }

  /** A havoc batch for an entry: `havocCycles` havoc outputs of its bytes, each referring to it. */
  ghost predicate HavocBatch(conf: Config, entry: QueueEntry, refs: seq<EntryParamRef>)
  {
    |refs| == HavocCount(conf) && HavocRefs(conf, entry, refs)
  }

  /** What havoc hands out for an entry before a tweak throws: fewer than `havocCycles` havoc outputs. */
  ghost predicate HavocCut(conf: Config, entry: QueueEntry, refs: seq<EntryParamRef>)
  {
    |refs| < HavocCount(conf) && HavocRefs(conf, entry, refs)
  }

  /** `refs` starts with the fixed stages' candidates for the entry, in order, each referring to it. */
  ghost predicate FixedFirst(conf: Config, sortedDictionary: seq<seq<bv8>>, entry: QueueEntry, refs: seq<EntryParamRef>, asWritten: bool)
  {
    var fixed := FixedStages(entry.bytes, conf.arithMax, sortedDictionary, asWritten);
    |fixed| <= |refs| && refs[..|fixed|] == Refs(fixed, entry)
  }

  /**
   * What `stages(entry)` yields for an entry it gets through: the fixed
   * stages' candidates in order, then a havoc batch, all referring to the entry.
   */
  ghost predicate StagesBatch(conf: Config, sortedDictionary: seq<seq<bv8>>, entry: QueueEntry, refs: seq<EntryParamRef>, asWritten: bool)
  {
    FixedFirst(conf, sortedDictionary, entry, refs, asWritten)
    && HavocBatch(conf, entry, refs[|FixedStages(entry.bytes, conf.arithMax, sortedDictionary, asWritten)|..])
  }

  /**
   * What `stages(entry)` hands out before havoc throws: the fixed stages'
   * candidates in order, then the havoc cycles finished before the throw.
   */
  ghost predicate StagesCut(conf: Config, sortedDictionary: seq<seq<bv8>>, entry: QueueEntry, refs: seq<EntryParamRef>, asWritten: bool)
  {
    FixedFirst(conf, sortedDictionary, entry, refs, asWritten)
    && HavocCut(conf, entry, refs[|FixedStages(entry.bytes, conf.arithMax, sortedDictionary, asWritten)|..])
  }

  /** Havoc outputs of an entry's bytes, each wrapped as a reference to the entry. */
  lemma HavocRefsOf(conf: Config, entry: QueueEntry, havoc: seq<seq<bv8>>)
    requires forall c :: c in havoc ==> HavocOutput(conf, entry.bytes, c)
    ensures HavocRefs(conf, entry, Refs(havoc, entry))
  {
    forall i | 0 <= i < |havoc|
      ensures HavocOutput(conf, entry.bytes, havoc[i])
    {
      assert havoc[i] in havoc;
    }
  }

  /** The fixed stages' candidates wrapped as references to the entry, followed by havoc references. */
  lemma FixedThenHavoc(conf: Config, sortedDictionary: seq<seq<bv8>>, entry: QueueEntry, fixed: seq<seq<bv8>>, havoc: seq<EntryParamRef>, asWritten: bool)
    requires fixed == FixedStages(entry.bytes, conf.arithMax, sortedDictionary, asWritten)
    ensures FixedFirst(conf, sortedDictionary, entry, Refs(fixed, entry) + havoc, asWritten)
    ensures (Refs(fixed, entry) + havoc)[|fixed|..] == havoc
  {
    var out := Refs(fixed, entry) + havoc;
    assert out[..|fixed|] == Refs(fixed, entry);
  }

  /**
   * What `initialValues()` yields: each configured value with an entry of its
   * own, numbered from minus the number of values up to minus one.
   */
  predicate InitialBatch(initialValues: seq<seq<bv8>>, refs: seq<EntryParamRef>)
  {
    |refs| == |initialValues|
    && forall i :: 0 <= i < |refs| ==>
      refs[i].value == initialValues[i] && refs[i].entry.bytes == initialValues[i]
      && refs[i].entry.dequeuedIndex == i - |initialValues|
  }

  /** The initial entries are numbered below zero and no two share a number. */
  lemma InitialBatchNumbering(initialValues: seq<seq<bv8>>, refs: seq<EntryParamRef>, i: int, j: int)
    requires InitialBatch(initialValues, refs)
    requires 0 <= i < |refs| && 0 <= j < |refs|
    ensures refs[i].entry.dequeuedIndex < 0
    ensures refs[i].entry.dequeuedIndex == refs[j].entry.dequeuedIndex ==> i == j
  {
  }

  /** The test cases the constructor enqueues: the initial values, with no trace and no time. */
  function InitialCases(initialValues: seq<seq<bv8>>): (r: seq<TestCase>)
    ensures |r| == |initialValues|
    ensures forall i :: 0 <= i < |r| ==> r[i] == TestCase(initialValues[i], None, None)
  {
    seq(|initialValues|, i requires 0 <= i < |initialValues| => TestCase(initialValues[i], None, None))
  }

  // ---------------------------------------------------------- onResult

  /**
   * The bytes `onResult` enqueues as written: only a parameter that is itself
   * a byte array passes `as? ByteArray`.
   */
  function EnqueuedBytesAsWritten(p: ResultParam): (r: Option<seq<bv8>>)
    ensures r.Some? <==> p.RawBytes?
    ensures r.Some? ==> r.value == p.bytes
  {
    if p.RawBytes? then Some(p.bytes) else None
  }

  /** The bytes `onResult` should enqueue: those of a bare byte array or of a reference holding bytes. */
  function EnqueuedBytes(p: ResultParam): (r: Option<seq<bv8>>)
    ensures r.Some? <==> p.RawBytes? || (p.EntryRef? && p.value.Some?)
    ensures p.RawBytes? ==> r == Some(p.bytes)
    ensures p.EntryRef? ==> r == p.value
  {
    match p
    case RawBytes(bytes) => Some(bytes)
    case EntryRef(value, _) => value
    case OtherValue => None
  }

  /**
   * As written, a candidate the generator handed out never gets back into the
   * queue, whatever trace it reached; the corrected extraction takes its bytes.
   */
  lemma GeneratedCandidatesNeverEnqueuedAsWritten(r: EntryParamRef)
    ensures EnqueuedBytesAsWritten(AsResultParam(r)).None?
    ensures EnqueuedBytes(AsResultParam(r)) == Some(r.value)
  {
  }

  /** The two extractions agree on everything but the generator's own references. */
  lemma EnqueuedBytesAgreeOffReferences(p: ResultParam)
    requires !p.EntryRef?
    ensures EnqueuedBytes(p) == EnqueuedBytesAsWritten(p)
  {
  }

  /** The test case a unique result puts in the queue: its bytes, its branches' hashes and its time. */
  function ResultCase(bytes: seq<bv8>, branches: seq<TraceResult.ResolvedBranch>, nanoTime: int): (c: TestCase)
    ensures c.bytes == bytes && c.nanoTime == Some(nanoTime)
    ensures c.branchHashes.Some? && |c.branchHashes.value| == |branches|
    ensures forall i :: 0 <= i < |branches| && TraceResult.ValidResolved(branches[i]) ==>
      c.branchHashes.value[i] == TraceResult.StableHashCode(branches[i], true)
  {
    TestCase(bytes, Some(Sorting.Keys(branches, TraceResult.SortKey)), Some(nanoTime))
  }

  /**
   * What a new trace enqueues for a parameter as written: a test case only
   * when the parameter is a bare byte array, never for one of the generator's
   * own references.
   */
  function ResultTestCaseAsWritten(param: ResultParam, branches: seq<TraceResult.ResolvedBranch>, nanoTime: int): (r: Option<TestCase>)
    ensures r.Some? <==> param.RawBytes?
    ensures r.Some? ==> r.value == ResultCase(param.bytes, branches, nanoTime)
  {
    var bytes := EnqueuedBytesAsWritten(param);
    if bytes.Some? then Some(ResultCase(bytes.value, branches, nanoTime)) else None
  }

  /** What a new trace should enqueue for a parameter: a test case when the parameter holds bytes. */
  function ResultTestCase(param: ResultParam, branches: seq<TraceResult.ResolvedBranch>, nanoTime: int): (r: Option<TestCase>)
    ensures r.Some? <==> EnqueuedBytes(param).Some?
    ensures r.Some? ==> r.value == ResultCase(EnqueuedBytes(param).value, branches, nanoTime)
  {
    var bytes := EnqueuedBytes(param);
    if bytes.Some? then Some(ResultCase(bytes.value, branches, nanoTime)) else None
  }

  /**
   * A run's `TraceResult` as `onResult` sees it: the resolved branches and the
   * `stableBranchesHash` property, which the trace computes once and keeps.
   */
  datatype Trace = Trace(branches: seq<TraceResult.ResolvedBranch>, stableBranchesHash: int)

  /** The trace of a run with these branches, keeping the trace hash with hit counts. */
  function TraceOf(branches: seq<TraceResult.ResolvedBranch>): (t: Trace)
    ensures t.branches == branches && JavaInts.IsInt(t.stableBranchesHash)
  {
    Trace(branches, TraceResult.StableBranchesHash(branches, true))
  }

  /** Two runs whose branches differ only in order share a fingerprint, so the second never enqueues. */
  lemma FingerprintIgnoresOrder(a: seq<TraceResult.ResolvedBranch>, b: seq<TraceResult.ResolvedBranch>)
    requires multiset(a) == multiset(b)
    ensures TraceOf(a).stableBranchesHash == TraceOf(b).stableBranchesHash
  {
    TraceResult.StableBranchesHashPermutationInvariant(a, b);
  }

  /** `(param as? EntryParamRef<*>)?.entry?.applyResult(result)`. */
  method ApplyToEntry(param: ResultParam, nanoTime: int, branchCount: nat)
    modifies EntryOf(param)
    ensures param.EntryRef? ==>
      && param.entry.totalNanoTime == JavaInts.Wrap64(old(param.entry.totalNanoTime) + nanoTime)
      && param.entry.totalBranchCount == JavaInts.Wrap64(old(param.entry.totalBranchCount) + branchCount)
      && param.entry.resultCount == JavaInts.Wrap64(old(param.entry.resultCount) + 1)
  {
    if param.EntryRef? {
      param.entry.ApplyResult(nanoTime, branchCount);
    }
  }

  /**
   * The cache and the queue after a result: the fingerprint is stored, and the
   * test case, if there is one, is appended and marks the queue for a cull
   * exactly when the fingerprint was not stored before.
   */
  predicate Recorded(seen0: set<int>, queue0: seq<TestCase>, dirty0: bool,
                     seen: set<int>, queue: seq<TestCase>, dirty: bool,
                     fingerprint: int, testCase: Option<TestCase>)
  {
    var enqueues := fingerprint !in seen0 && testCase.Some?;
    && seen == seen0 + {fingerprint}
    && queue == queue0 + (if enqueues then [testCase.value] else [])
    && dirty == (dirty0 || enqueues)
  }

  // ------------------------------------------------------------- close

  /**
   * `close()`: both closes are attempted, whatever the first does; the call
   * fails when either failed, with the cache's failure when both did.
   */
  function CloseFailure<E>(queueFailure: Option<E>, cacheFailure: Option<E>): (r: Option<E>)
    ensures r.None? <==> queueFailure.None? && cacheFailure.None?
    ensures cacheFailure.Some? ==> r == cacheFailure
    ensures cacheFailure.None? ==> r == queueFailure
  {
    if cacheFailure.Some? then cacheFailure else queueFailure
  }

  // --------------------------------------------------------- generator

  class ByteArrayParamGen {
    const conf: Config
    /** `conf.rand`. */
    const rand: Rand
    const userDictionary: seq<seq<bv8>>
    const seenBranchesCache: SetBacked
    const inputQueue: ListBacked
    var totalNanoTime: int
    var totalBranchCount: int
    var resultCount: int
    var queueCycle: nat
    var startMs: int
    var lastEntry: Option<QueueEntry>

    /** The start time is set together with the first increment of the cycle count. */
    ghost predicate Valid()
      reads this
    {
      startMs > 0 ==> queueCycle >= 1
    }

    /** The dictionary sorted shortest first, the in-memory cache and queue, and every initial value enqueued. */
    constructor (conf: Config, rand: Rand)
      ensures Valid()
      ensures this.conf == conf && this.rand == rand
      ensures userDictionary == DictionaryStage.SortedDictionary(conf.dictionary)
      ensures fresh(seenBranchesCache) && seenBranchesCache.seenBranchHashes == {}
      ensures fresh(inputQueue) && inputQueue.queue == InitialCases(conf.initialValues)
      ensures inputQueue.enqueuedSinceLastDequeued == (|conf.initialValues| > 0) && inputQueue.queueCounter == 0
      ensures totalNanoTime == 0 && totalBranchCount == 0 && resultCount == 0
      ensures queueCycle == 0 && startMs == -1 && lastEntry.None?
    {
      this.conf := conf;
      this.rand := rand;
      userDictionary := DictionaryStage.SortedDictionary(conf.dictionary);
      var queue := new ListBacked([]);
      var i := 0;
      while i < |conf.initialValues|
        invariant 0 <= i <= |conf.initialValues|
        invariant queue.queue == InitialCases(conf.initialValues[..i])
        invariant queue.enqueuedSinceLastDequeued == (i > 0) && queue.queueCounter == 0
      {
        queue.Enqueue(TestCase(conf.initialValues[i], None, None));
        assert conf.initialValues[..i + 1] == conf.initialValues[..i] + [conf.initialValues[i]];
        i := i + 1;
      }
      assert conf.initialValues[..i] == conf.initialValues;
      inputQueue := queue;
      seenBranchesCache := new SetBacked({});
      totalNanoTime, totalBranchCount, resultCount := 0, 0, 0;
      queueCycle, startMs, lastEntry := 0, -1, None;
    }

    /**
     * `onResult`: the generator's totals grow, the entry behind the parameter
     * takes the result, the trace's fingerprint is stored, and when it was new
     * and the parameter is a bare byte array, its bytes are enqueued with the
     * branch hashes and the time; a reference the generator handed out never is.
     */
    method OnResult(nanoTime: int, trace: Trace, param: ResultParam)
      modifies this, seenBranchesCache, inputQueue, EntryOf(param)
      ensures totalNanoTime == old(totalNanoTime) + nanoTime
      ensures totalBranchCount == old(totalBranchCount) + |trace.branches|
      ensures resultCount == old(resultCount) + 1
      ensures queueCycle == old(queueCycle) && startMs == old(startMs) && lastEntry == old(lastEntry)
      ensures param.EntryRef? ==>
        && param.entry.totalNanoTime == JavaInts.Wrap64(old(param.entry.totalNanoTime) + nanoTime)
        && param.entry.totalBranchCount == JavaInts.Wrap64(old(param.entry.totalBranchCount) + |trace.branches|)
        && param.entry.resultCount == JavaInts.Wrap64(old(param.entry.resultCount) + 1)
      ensures Recorded(old(seenBranchesCache.seenBranchHashes), old(inputQueue.queue), old(inputQueue.enqueuedSinceLastDequeued),
        seenBranchesCache.seenBranchHashes, inputQueue.queue, inputQueue.enqueuedSinceLastDequeued,
        trace.stableBranchesHash, ResultTestCaseAsWritten(param, trace.branches, nanoTime))
      ensures inputQueue.queueCounter == old(inputQueue.queueCounter)
    {
      totalNanoTime := totalNanoTime + nanoTime;
      totalBranchCount := totalBranchCount + |trace.branches|;
      resultCount := resultCount + 1;
      ApplyToEntry(param, nanoTime, |trace.branches|);
      StoreUnique(trace.stableBranchesHash, ResultTestCaseAsWritten(param, trace.branches, nanoTime));
    }

    /**
     * `onResult` corrected to enqueue the bytes of a reference too: the generator's totals grow, the entry behind the parameter
     * takes the result, the trace's fingerprint is stored, and when it was new
     * and the parameter holds bytes, those bytes are enqueued with the branch
     * hashes and the time.
     */
    method OnResultCorrected(nanoTime: int, trace: Trace, param: ResultParam)
      modifies this, seenBranchesCache, inputQueue, EntryOf(param)
      ensures totalNanoTime == old(totalNanoTime) + nanoTime
      ensures totalBranchCount == old(totalBranchCount) + |trace.branches|
      ensures resultCount == old(resultCount) + 1
      ensures queueCycle == old(queueCycle) && startMs == old(startMs) && lastEntry == old(lastEntry)
      ensures param.EntryRef? ==>
        && param.entry.totalNanoTime == JavaInts.Wrap64(old(param.entry.totalNanoTime) + nanoTime)
        && param.entry.totalBranchCount == JavaInts.Wrap64(old(param.entry.totalBranchCount) + |trace.branches|)
        && param.entry.resultCount == JavaInts.Wrap64(old(param.entry.resultCount) + 1)
      ensures Recorded(old(seenBranchesCache.seenBranchHashes), old(inputQueue.queue), old(inputQueue.enqueuedSinceLastDequeued),
        seenBranchesCache.seenBranchHashes, inputQueue.queue, inputQueue.enqueuedSinceLastDequeued,
        trace.stableBranchesHash, ResultTestCase(param, trace.branches, nanoTime))
      ensures inputQueue.queueCounter == old(inputQueue.queueCounter)
    {
      totalNanoTime := totalNanoTime + nanoTime;
      totalBranchCount := totalBranchCount + |trace.branches|;
      resultCount := resultCount + 1;
      ApplyToEntry(param, nanoTime, |trace.branches|);
      StoreUnique(trace.stableBranchesHash, ResultTestCase(param, trace.branches, nanoTime));
    }

    /** The fingerprint stored, and the test case, if any, enqueued when the fingerprint was new. */
    method StoreUnique(fingerprint: int, testCase: Option<TestCase>)
      modifies seenBranchesCache, inputQueue
      ensures Recorded(old(seenBranchesCache.seenBranchHashes), old(inputQueue.queue), old(inputQueue.enqueuedSinceLastDequeued),
        seenBranchesCache.seenBranchHashes, inputQueue.queue, inputQueue.enqueuedSinceLastDequeued,
        fingerprint, testCase)
      ensures inputQueue.queueCounter == old(inputQueue.queueCounter)
    {
      var unique := seenBranchesCache.CheckUniqueAndStore(fingerprint);
      if unique && testCase.Some? {
        inputQueue.Enqueue(testCase.value);
      }
    }

    /** `initialValues()`: a fresh entry per configured value, numbered below zero. */
    method InitialValues() returns (out: seq<EntryParamRef>)
      ensures InitialBatch(conf.initialValues, out)
      ensures forall i :: 0 <= i < |out| ==> fresh(out[i].entry)
    {
      var n := |conf.initialValues|;
      out := [];
      var index := 0;
      while index < n
        invariant 0 <= index <= n
        invariant |out| == index
        invariant forall i :: 0 <= i < index ==>
          out[i].value == conf.initialValues[i] && out[i].entry.bytes == conf.initialValues[i]
          && out[i].entry.dequeuedIndex == i - n && fresh(out[i].entry)
      {
        var initVal := conf.initialValues[index];
        var entry := new QueueEntry(initVal, index - n);
        out := out + [EntryParamRef(initVal, entry)];
        index := index + 1;
      }
    }

    /**
     * `stages(entry)`: the entry becomes the last one, the cycle count moves
     * on and the start time is taken at the first call; then the fixed stages
     * and havoc run over the entry's bytes.  As written, an entry shorter than
     * two bytes yields the candidates up to `stageArith8` and then
     * `stageArith16` throws, before havoc is reached.
     */
    method Stages(entry: QueueEntry, nowMs: int) returns (out: seq<EntryParamRef>, threw: bool)
      requires Valid() && ValidConfig(conf) && DrawsVary(rand)
      modifies this, rand
      ensures Valid()
      ensures lastEntry == Some(entry) && queueCycle == old(queueCycle) + 1
      ensures startMs == if old(startMs) < 0 then nowMs else old(startMs)
      ensures totalNanoTime == old(totalNanoTime) && totalBranchCount == old(totalBranchCount) && resultCount == old(resultCount)
      ensures threw <==> |entry.bytes| < 2
      ensures threw ==> out == Refs(StagesPrefix(entry.bytes, conf.arithMax), entry)
      ensures !threw ==> StagesBatch(conf, userDictionary, entry, out, true)
    {
      lastEntry := Some(entry);
      queueCycle := queueCycle + 1;
      if startMs < 0 {
        startMs := nowMs;
      }
      ghost var counts := (totalNanoTime, totalBranchCount, resultCount);
      out, threw := EntryRun(entry, nowMs);
      assert counts == (totalNanoTime, totalBranchCount, resultCount);
    }

    /**
     * `stages(entry)` corrected: no 16-bit candidates for an entry that holds
     * no short, and the corrected `stageInteresting32`.  Havoc can throw on an
     * empty entry, after the candidates it has already handed out.
     */
    method StagesCorrected(entry: QueueEntry, nowMs: int) returns (out: seq<EntryParamRef>, threw: bool)
      requires Valid() && ValidConfig(conf) && DrawsVary(rand)
      modifies this, rand
      ensures Valid()
      ensures lastEntry == Some(entry) && queueCycle == old(queueCycle) + 1
      ensures startMs == if old(startMs) < 0 then nowMs else old(startMs)
      ensures totalNanoTime == old(totalNanoTime) && totalBranchCount == old(totalBranchCount) && resultCount == old(resultCount)
      ensures threw ==> entry.bytes == [] && StagesCut(conf, userDictionary, entry, out, false)
      ensures !threw ==> StagesBatch(conf, userDictionary, entry, out, false)
    {
      lastEntry := Some(entry);
      queueCycle := queueCycle + 1;
      if startMs < 0 {
        startMs := nowMs;
      }
      out, threw := EntryRunCorrected(entry, nowMs);
    }

    /** The fixed stages as written and then havoc over an entry, leaving the generator's own fields alone. */
    method EntryRun(entry: QueueEntry, nowMs: int) returns (out: seq<EntryParamRef>, threw: bool)
      requires Valid() && ValidConfig(conf) && DrawsVary(rand)
      modifies rand
      ensures threw <==> |entry.bytes| < 2
      ensures threw ==> out == Refs(StagesPrefix(entry.bytes, conf.arithMax), entry)
      ensures !threw ==> StagesBatch(conf, userDictionary, entry, out, true)
    {
      var fixed;
      fixed, threw := FixedStageRun(entry.bytes);
      if threw {
        return Refs(fixed, entry), true;
      }
      var havoc, havocThrew := HavocRun(entry, nowMs);
      out := Refs(fixed, entry) + havoc;
      FixedThenHavoc(conf, userDictionary, entry, fixed, havoc, true);
    }

    /** The fixed stages corrected and then havoc over an entry, leaving the generator's own fields alone. */
    method EntryRunCorrected(entry: QueueEntry, nowMs: int) returns (out: seq<EntryParamRef>, threw: bool)
      requires Valid() && ValidConfig(conf) && DrawsVary(rand)
      modifies rand
      ensures threw ==> entry.bytes == [] && StagesCut(conf, userDictionary, entry, out, false)
      ensures !threw ==> StagesBatch(conf, userDictionary, entry, out, false)
    {
      var fixed := FixedStageRunCorrected(entry.bytes);
      var havoc;
      havoc, threw := HavocRun(entry, nowMs);
      out := Refs(fixed, entry) + havoc;
      FixedThenHavoc(conf, userDictionary, entry, fixed, havoc, false);
    }

    /**
     * `stageHavoc` over an entry's bytes, every candidate a reference to the
     * entry: a full havoc batch, or the cycles finished before a tweak threw
     * on an empty entry.
     */
    method HavocRun(entry: QueueEntry, nowMs: int) returns (out: seq<EntryParamRef>, threw: bool)
      requires Valid() && ValidConfig(conf) && DrawsVary(rand)
      modifies rand
      ensures threw ==> entry.bytes == [] && HavocCut(conf, entry, out)
      ensures !threw ==> HavocBatch(conf, entry, out)
    {
      var havoc;
      havoc, threw := StageHavoc(rand, conf, Progress(startMs, queueCycle, nowMs), entry.bytes);
      out := Refs(havoc, entry);
      HavocRefsOf(conf, entry, havoc);
    }

    /** The seven stages up to `stageArith8`, one after the other. */
    method PrefixRun(buf: seq<bv8>) returns (out: seq<seq<bv8>>)
      ensures out == StagesPrefix(buf, conf.arithMax)
    {
      var bits1 := FlipStages.StageFlipBits(buf, 1);
      var bits2 := FlipStages.StageFlipBits(buf, 2);
      var bits4 := FlipStages.StageFlipBits(buf, 4);
      var bytes1 := FlipStages.StageFlipBytes(buf, 1);
      var bytes2 := FlipStages.StageFlipBytes(buf, 2);
      var bytes4 := FlipStages.StageFlipBytes(buf, 4);
      var arith8 := ValueStages.StageArith8(buf, conf.arithMax);
      out := bits1 + bits2 + bits4 + bytes1 + bytes2 + bytes4 + arith8;
    }

    /** The five stages after `stageArith16`, one after the other, with `stageInteresting32` as written or corrected. */
    method AfterArith16Run(buf: seq<bv8>, asWritten: bool) returns (out: seq<seq<bv8>>)
      ensures out == StagesAfterArith16(buf, conf.arithMax, userDictionary, asWritten)
    {
      var arith32 := ValueStages.StageArith32(buf, conf.arithMax);
      var interesting8 := ValueStages.StageInteresting8(buf, conf.arithMax);
      var interesting16 := ValueStages.StageInteresting16(buf, conf.arithMax);
      var interesting32;
      if asWritten {
        interesting32 := ValueStages.StageInteresting32AsWritten(buf, conf.arithMax);
      } else {
        interesting32 := ValueStages.StageInteresting32(buf, conf.arithMax);
      }
      var dictionary := DictionaryStage.StageDictionary(buf, userDictionary);
      out := arith32 + interesting8 + interesting16 + interesting32 + dictionary;
    }

    /**
     * The thirteen stages before havoc as written: a seed shorter than two
     * bytes gets through `stageArith8`, and then `stageArith16` throws.
     */
    method FixedStageRun(buf: seq<bv8>) returns (out: seq<seq<bv8>>, threw: bool)
      ensures threw <==> |buf| < 2
      ensures threw ==> out == StagesPrefix(buf, conf.arithMax)
      ensures !threw ==> out == FixedStages(buf, conf.arithMax, userDictionary, true)
    {
      out := PrefixRun(buf);
      var arith16 := ValueStages.StageArith16AsWritten(buf, conf.arithMax);
      if arith16.None? {
        return out, true;
      }
      var rest := AfterArith16Run(buf, true);
      out, threw := out + arith16.value + rest, false;
    }

    /** The thirteen stages before havoc, corrected, one after the other. */
    method FixedStageRunCorrected(buf: seq<bv8>) returns (out: seq<seq<bv8>>)
      ensures out == FixedStages(buf, conf.arithMax, userDictionary, false)
    {
      var prefix := PrefixRun(buf);
      var arith16 := ValueStages.StageArith16(buf, conf.arithMax);
      var rest := AfterArith16Run(buf, false);
      out := prefix + arith16 + rest;
    }

    /**
     * One step of the iterator as written: the next entry of the queue (culled
     * first if anything was enqueued since the last dequeue) through the
     * stages; if the queue is empty, a havoc batch of the last entry; if there
     * is none, the initial values.  The step throws when the stages meet an
     * entry shorter than two bytes, or havoc an empty one.
     */
    method NextBatch(nowMs: int) returns (out: seq<EntryParamRef>, threw: bool)
      requires Valid() && ValidConfig(conf) && DrawsVary(rand)
      modifies this, rand, inputQueue
      ensures Valid()
      ensures totalNanoTime == old(totalNanoTime) && totalBranchCount == old(totalBranchCount) && resultCount == old(resultCount)
      ensures old(inputQueue.queue) != [] ==>
        var q := if old(inputQueue.enqueuedSinceLastDequeued) then Culled(old(inputQueue.queue)) else old(inputQueue.queue);
        && lastEntry.Some? && fresh(lastEntry.value)
        && lastEntry.value.bytes == q[0].bytes && lastEntry.value.dequeuedIndex == old(inputQueue.queueCounter)
        && inputQueue.queue == q[1..] && !inputQueue.enqueuedSinceLastDequeued
        && inputQueue.queueCounter == JavaInts.Wrap64(old(inputQueue.queueCounter) + 1)
        && queueCycle == old(queueCycle) + 1
        && startMs == (if old(startMs) < 0 then nowMs else old(startMs))
        && (threw <==> |q[0].bytes| < 2)
        && (threw ==> out == Refs(StagesPrefix(q[0].bytes, conf.arithMax), lastEntry.value))
        && (!threw ==> StagesBatch(conf, userDictionary, lastEntry.value, out, true))
      ensures old(inputQueue.queue) == [] ==>
        && inputQueue.queue == [] && lastEntry == old(lastEntry)
        && queueCycle == old(queueCycle) && startMs == old(startMs)
      ensures old(inputQueue.queue) == [] && old(lastEntry).Some? ==>
        && (threw ==> old(lastEntry).value.bytes == [] && HavocCut(conf, old(lastEntry).value, out))
        && (!threw ==> HavocBatch(conf, old(lastEntry).value, out))
      ensures old(inputQueue.queue) == [] && old(lastEntry).None? ==>
        && !threw && InitialBatch(conf.initialValues, out)
        && forall i :: 0 <= i < |out| ==> fresh(out[i].entry)
    {
      var dequeued := inputQueue.CullAndDequeue();
      if dequeued.Some? {
        out, threw := Stages(dequeued.value, nowMs);
      } else if lastEntry.Some? {
        out, threw := HavocRun(lastEntry.value, nowMs);
      } else {
        out := InitialValues();
        threw := false;
      }
    }

    /** One step of the iterator with the corrected stages. */
    method NextBatchCorrected(nowMs: int) returns (out: seq<EntryParamRef>, threw: bool)
      requires Valid() && ValidConfig(conf) && DrawsVary(rand)
      modifies this, rand, inputQueue
      ensures Valid()
      ensures totalNanoTime == old(totalNanoTime) && totalBranchCount == old(totalBranchCount) && resultCount == old(resultCount)
      ensures old(inputQueue.queue) != [] ==>
        var q := if old(inputQueue.enqueuedSinceLastDequeued) then Culled(old(inputQueue.queue)) else old(inputQueue.queue);
        && lastEntry.Some? && fresh(lastEntry.value)
        && lastEntry.value.bytes == q[0].bytes && lastEntry.value.dequeuedIndex == old(inputQueue.queueCounter)
        && inputQueue.queue == q[1..] && !inputQueue.enqueuedSinceLastDequeued
        && inputQueue.queueCounter == JavaInts.Wrap64(old(inputQueue.queueCounter) + 1)
        && queueCycle == old(queueCycle) + 1
        && startMs == (if old(startMs) < 0 then nowMs else old(startMs))
        && (threw ==> q[0].bytes == [] && StagesCut(conf, userDictionary, lastEntry.value, out, false))
        && (!threw ==> StagesBatch(conf, userDictionary, lastEntry.value, out, false))
      ensures old(inputQueue.queue) == [] ==>
        && inputQueue.queue == [] && lastEntry == old(lastEntry)
        && queueCycle == old(queueCycle) && startMs == old(startMs)
      ensures old(inputQueue.queue) == [] && old(lastEntry).Some? ==>
        && (threw ==> old(lastEntry).value.bytes == [] && HavocCut(conf, old(lastEntry).value, out))
        && (!threw ==> HavocBatch(conf, old(lastEntry).value, out))
      ensures old(inputQueue.queue) == [] && old(lastEntry).None? ==>
        && !threw && InitialBatch(conf.initialValues, out)
        && forall i :: 0 <= i < |out| ==> fresh(out[i].entry)
    {
      var dequeued := inputQueue.CullAndDequeue();
      if dequeued.Some? {
        out, threw := StagesCorrected(dequeued.value, nowMs);
      } else if lastEntry.Some? {
        out, threw := HavocRun(lastEntry.value, nowMs);
      } else {
        out := InitialValues();
        threw := false;
      }
    }
  }
}
