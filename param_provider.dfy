/**
 * `ParamProvider`: the strategies that combine one value generator per
 * method parameter into whole argument arrays.  A generator is modelled by
 * the values one pass of its iterator yields (every `iterator()` call starts
 * the same pass again) and by the interfaces it implements.  The sequences
 * are lazy in the source; here each strategy produces the first `limit`
 * argument arrays a consumer takes.
 */
module ParamProvider {
  import opened Wrappers
  import JavaInts
  import JavaRandom

  /** A parameter generator: one pass of its values, and what it is besides an iterable. */
  datatype Gen<V> = Gen(values: seq<V>, isCollection: bool, isByteArrayGen: bool, withFeedback: bool, closeable: bool)

  function ValuesOf<V>(gens: seq<Gen<V>>): (r: seq<seq<V>>)
    ensures |r| == |gens| && forall i :: 0 <= i < |gens| ==> r[i] == gens[i].values
  {
    seq(|gens|, i requires 0 <= i < |gens| => gens[i].values)
  }

  // ------------------------------------------------------ indices

  /** The indices whose flag equals b, ascending (one side of `withIndex().partition`). */
  function IndicesWhere(flags: seq<bool>, b: bool): (r: seq<nat>)
    ensures forall j :: 0 <= j < |r| ==> r[j] < |flags| && flags[r[j]] == b
    ensures forall i :: 0 <= i < |flags| && flags[i] == b ==> i in r
    ensures forall j, j' :: 0 <= j < j' < |r| ==> r[j] < r[j']
  {
    if flags == [] then []
    else
      var init := IndicesWhere(flags[..|flags| - 1], b);
      if flags[|flags| - 1] == b then init + [|flags| - 1] else init
  }

  /** Together the two sides hold every index once. */
  lemma IndicesSplit(flags: seq<bool>)
    ensures |IndicesWhere(flags, true)| + |IndicesWhere(flags, false)| == |flags|
    ensures forall i :: 0 <= i < |flags| ==> (i in IndicesWhere(flags, true) <==> i !in IndicesWhere(flags, false))
  {
    if flags != [] {
      IndicesSplit(flags[..|flags| - 1]);
    }
  }

  /** No flag equals b, so no index is selected. */
  lemma {:induction false} IndicesWhereNone(flags: seq<bool>, b: bool)
    requires forall i :: 0 <= i < |flags| ==> flags[i] != b
    ensures IndicesWhere(flags, b) == []
  {
    if flags != [] {
      IndicesWhereNone(flags[..|flags| - 1], b);
    }
  }

  /** The generators at the given indices, in order. */
  function Select<V>(gens: seq<Gen<V>>, idx: seq<nat>): (r: seq<Gen<V>>)
    requires forall j :: 0 <= j < |idx| ==> idx[j] < |gens|
    ensures |r| == |idx| && forall j :: 0 <= j < |idx| ==> r[j] == gens[idx[j]]
  {
    seq(|idx|, j requires 0 <= j < |idx| => gens[idx[j]])
  }

  // ------------------------------------------------------ feedback and close

  function FeedbackFlags<V>(gens: seq<Gen<V>>): (r: seq<bool>)
    ensures |r| == |gens| && forall i :: 0 <= i < |gens| ==> r[i] == gens[i].withFeedback
  {
    seq(|gens|, i requires 0 <= i < |gens| => gens[i].withFeedback)
  }

  function CloseableFlags<V>(gens: seq<Gen<V>>): (r: seq<bool>)
    ensures |r| == |gens| && forall i :: 0 <= i < |gens| ==> r[i] == gens[i].closeable
  {
    seq(|gens|, i requires 0 <= i < |gens| => gens[i].closeable)
  }

  /**
   * `WithFeedbackAndCloseDelegated.onResult`: the parameter indices whose
   * generator receives the result, in order; each generator is told its own
   * index.
   */
  method OnResult<V>(gens: seq<Gen<V>>) returns (calls: seq<nat>)
    ensures calls == IndicesWhere(FeedbackFlags(gens), true)
  {
    calls := [];
    var index := 0;
    while index < |gens|
      invariant 0 <= index <= |gens|
      invariant calls == IndicesWhere(FeedbackFlags(gens)[..index], true)
    {
      assert FeedbackFlags(gens)[..index + 1][..index] == FeedbackFlags(gens)[..index];
      if gens[index].withFeedback {
        calls := calls + [index];
      }
      index := index + 1;
    }
    assert FeedbackFlags(gens)[..index] == FeedbackFlags(gens);
  }

  /** `WithFeedbackAndCloseDelegated.close`: the indices of the generators closed, in order. */
  method Close<V>(gens: seq<Gen<V>>) returns (closed: seq<nat>)
    ensures closed == IndicesWhere(CloseableFlags(gens), true)
  {
    closed := [];
    var index := 0;
    while index < |gens|
      invariant 0 <= index <= |gens|
      invariant closed == IndicesWhere(CloseableFlags(gens)[..index], true)
    {
      assert CloseableFlags(gens)[..index + 1][..index] == CloseableFlags(gens)[..index];
      if gens[index].closeable {
        closed := closed + [index];
      }
      index := index + 1;
    }
    assert CloseableFlags(gens)[..index] == CloseableFlags(gens);
  }

  // ------------------------------------------------------ restarting passes

  /** How far into its current pass an iterator over L values is after k `next()` calls that restart it at the end. */
  function PosAfter(k: nat, L: nat): (p: nat)
    requires L > 0
    ensures 0 <= p <= L
  {
    if k == 0 then 0 else (k - 1) % L + 1
  }

  /** The remainder is determined by any quotient-remainder split. */
  lemma ModUnique(k: nat, q: nat, L: nat, s: nat)
    requires L > 0 && s < L && k == q * L + s
    ensures k % L == s
  {
    var q', s' := k / L, k % L;
    assert (q - q') * L == s' - s;
    SmallMultiple(q - q', L);
  }

  /** A multiple of L strictly between -L and L is zero. */
  lemma SmallMultiple(d: int, L: int)
    requires L > 0 && -L < d * L < L
    ensures d == 0
  {
  }

  /** The next call reads index k mod L, and it restarts the pass exactly when k is a positive multiple of L. */
  lemma PosAfterStep(k: nat, L: nat)
    requires L > 0
    ensures PosAfter(k, L) % L == k % L
    ensures PosAfter(k + 1, L) == k % L + 1
    ensures PosAfter(k, L) == L <==> k > 0 && k % L == 0
    ensures (k > L || (k > 0 && k % L == 0)) <==> k + 1 > L
  {
    ModUnique(L, 1, L, 0);
    if k == 0 {
      ModUnique(0, 0, L, 0);
    } else {
      var q := (k - 1) / L;
      var r := (k - 1) % L;
      assert k - 1 == q * L + r;
      if r + 1 < L {
        ModUnique(k, q, L, r + 1);
        ModUnique(r + 1, 0, L, r + 1);
        assert PosAfter(k, L) == r + 1;
      } else {
        ModUnique(k, q + 1, L, 0);
        assert PosAfter(k, L) == L;
      }
    }
  }

  /** `InfiniteRestartingIterable`: an iterable that starts its source over whenever it runs out. */
  class InfiniteRestartingIterable<V> {
    const orig: seq<V>
    var completedAtLeastOnce: bool

    constructor (orig: seq<V>)
      ensures this.orig == orig && !completedAtLeastOnce
    {
      this.orig := orig;
      completedAtLeastOnce := false;
    }

    /** `iterator()`: `require(iter.hasNext())` rejects an empty source. */
    method Iterator() returns (r: Result<RestartingIterator<V>, string>)
      ensures r.Err? <==> orig == []
      ensures r.Ok? ==> fresh(r.value) && r.value.owner == this && r.value.pos == 0 && r.value.Valid()
    {
      if orig == [] {
        return Err("Failed requirement.");
      }
      var it := new RestartingIterator(this);
      r := Ok(it);
    }
  }

  /** The iterator of an `InfiniteRestartingIterable`; `hasNext()` is always true. */
  class RestartingIterator<V> {
    const owner: InfiniteRestartingIterable<V>
    /** How many values of the current pass have been taken. */
    var pos: nat

    constructor (owner: InfiniteRestartingIterable<V>)
      ensures this.owner == owner && pos == 0
    {
      this.owner := owner;
      pos := 0;
    }

    ghost predicate Valid()
      reads this, owner
    {
      0 < |owner.orig| && pos <= |owner.orig|
    }

    /** `next()`: at the end of the pass, mark the source completed and start it over. */
    method Next() returns (x: V)
      requires Valid()
      modifies this, owner
      ensures Valid()
      ensures x == owner.orig[old(pos) % |owner.orig|]
      ensures pos == old(pos) % |owner.orig| + 1
      ensures owner.completedAtLeastOnce == (old(owner.completedAtLeastOnce) || old(pos) == |owner.orig|)
    {
      if pos == |owner.orig| {
        owner.completedAtLeastOnce := true;
        pos := 0;
      }
      x := owner.orig[pos];
      pos := pos + 1;
    }
  }

  // ------------------------------------------------------ partitioned

  /** The indices in idx are distinct and within n. */
  predicate Distinct(idx: seq<nat>, n: nat)
  {
    (forall j :: 0 <= j < |idx| ==> idx[j] < n) && (forall j, j' :: 0 <= j < j' < |idx| ==> idx[j] != idx[j'])
  }

  /** No index is on both sides. */
  predicate Disjoint(trueIdx: seq<nat>, falseIdx: seq<nat>)
  {
    forall j :: 0 <= j < |trueIdx| ==> trueIdx[j] !in falseIdx
  }

  /**
   * `tuple.forEachIndexed { index, param -> arr[idx[index].index] = param }`:
   * fails with an index out of bounds once the tuple is longer than idx.
   */
  method WriteBack<V>(arr: array<V>, idx: seq<nat>, tuple: seq<V>) returns (ok: bool)
    requires Distinct(idx, arr.Length)
    modifies arr
    ensures ok <==> |tuple| <= |idx|
    ensures ok ==> forall j :: 0 <= j < |tuple| ==> arr[idx[j]] == tuple[j]
    ensures ok ==> forall i :: 0 <= i < arr.Length && i !in idx ==> arr[i] == old(arr[i])
  {
    var index := 0;
    while index < |tuple|
      invariant 0 <= index <= |tuple|
      invariant index <= |idx|
      invariant forall j :: 0 <= j < index ==> arr[idx[j]] == tuple[j]
      invariant forall i :: 0 <= i < arr.Length && i !in idx ==> arr[i] == old(arr[i])
    {
      if index >= |idx| {
        return false;
      }
      arr[idx[index]] := tuple[index];
      index := index + 1;
    }
    ok := true;
  }

  /** Every tuple in ts has exactly n values. */
  predicate TupleLengths<V>(ts: seq<seq<V>>, n: nat)
  {
    forall k :: 0 <= k < |ts| ==> |ts[k]| == n
  }

  /**
   * A provider, seen through what one pass of its iterator yields for the
   * generators it is given, or the exception its first `next()` throws.
   */
  type Provider<!V> = seq<Gen<V>> -> Result<seq<seq<V>>, string>

  /** The provider's tuples hold one value per generator it was given. */
  predicate ProviderShape<V>(provider: Provider<V>, gens: seq<Gen<V>>)
  {
    provider(gens).Ok? ==> TupleLengths(provider(gens).value, |gens|)
  }

  /** What a consumer taking at most `limit` tuples gets from a provider's iterator. */
  function Delegate<V>(pass: Result<seq<seq<V>>, string>, limit: nat): (r: Result<seq<seq<V>>, string>)
    ensures r.Err? <==> limit > 0 && pass.Err?
    ensures r.Ok? && pass.Ok? ==> r.value == pass.value[..Min(|pass.value|, limit)]
    ensures r.Ok? && pass.Err? ==> r.value == []
  {
    if limit == 0 then Ok([])
    else if pass.Err? then Err(pass.error)
    else Ok(pass.value[..Min(|pass.value|, limit)])
  }

  /** Both yield the same tuples, or both throw (whatever the message). */
  ghost predicate SameOutcome<V>(r: Result<seq<seq<V>>, string>, r': Result<seq<seq<V>>, string>)
  {
    r.Err? == r'.Err? && (r.Ok? ==> r.value == r'.value)
  }

  function Min(a: nat, b: nat): nat
  {
    if a < b then a else b
  }

  /**
   * Every tuple of out has n values; tuple k holds the k-th tuple of each
   * side (both sides restarting when they run out) at that side's indices.
   */
  ghost predicate MergedFrom<V>(out: seq<seq<V>>, n: nat, trueIdx: seq<nat>, falseIdx: seq<nat>, ts: seq<seq<V>>, fs: seq<seq<V>>)
  {
    (forall k :: 0 <= k < |out| ==> |out[k]| == n) &&
    (out != [] ==> ts != [] && fs != [] && TupleLengths(ts, |trueIdx|) && TupleLengths(fs, |falseIdx|) && Distinct(trueIdx, n) && Distinct(falseIdx, n)) &&
    SideFrom(out, trueIdx, ts) && SideFrom(out, falseIdx, fs)
  }

  /** Tuple k of out holds the k-th tuple of ts (restarting when it runs out) at the indices idx. */
  ghost predicate SideFrom<V>(out: seq<seq<V>>, idx: seq<nat>, ts: seq<seq<V>>)
  {
    forall k, j :: 0 <= k < |out| && 0 <= j < |idx| && ts != [] && j < |ts[k % |ts|]| && idx[j] < |out[k]| ==> out[k][idx[j]] == ts[k % |ts|][j]
  }

  /** A tuple holding the next tuple of ts at idx extends a side. */
  lemma SideAppend<V>(out: seq<seq<V>>, tuple: seq<V>, idx: seq<nat>, ts: seq<seq<V>>)
    requires ts != [] && SideFrom(out, idx, ts)
    requires forall j :: 0 <= j < |idx| && j < |ts[|out| % |ts|]| && idx[j] < |tuple| ==> tuple[idx[j]] == ts[|out| % |ts|][j]
    ensures SideFrom(out + [tuple], idx, ts)
  {
    var out' := out + [tuple];
    forall k, j | 0 <= k < |out'| && 0 <= j < |idx| && j < |ts[k % |ts|]| && idx[j] < |out'[k]|
      ensures out'[k][idx[j]] == ts[k % |ts|][j]
    {
      if k < |out| {
        assert out'[k] == out[k];
      }
    }
  }

  /** How many tuples the merging loop yields to a consumer taking at most `limit`. */
  function MergedCount(stop: bool, limit: nat, trueCount: nat, falseCount: nat): nat
  {
    var total := (if trueCount < falseCount then falseCount else trueCount) + 1;
    if stop && total < limit then total else limit
  }

  /**
   * One round of the merging loop: the next tuple of each side, written back
   * at that side's indices, and a copy of the array.
   */
  method MergeRound<V>(trueIterator: RestartingIterator<seq<V>>, falseIterator: RestartingIterator<seq<V>>, arr: array<V>,
                       trueIdx: seq<nat>, falseIdx: seq<nat>, tLen: nat, fLen: nat)
    returns (ok: bool, tuple: seq<V>)
    requires trueIterator.Valid() && falseIterator.Valid() && trueIterator.owner != falseIterator.owner
    requires Distinct(trueIdx, arr.Length) && Distinct(falseIdx, arr.Length) && Disjoint(trueIdx, falseIdx)
    requires TupleLengths(trueIterator.owner.orig, tLen) && TupleLengths(falseIterator.owner.orig, fLen)
    requires tLen >= |trueIdx| && fLen >= |falseIdx|
    modifies trueIterator, falseIterator, trueIterator.owner, falseIterator.owner, arr
    ensures ok <==> tLen <= |trueIdx| && fLen <= |falseIdx|
    ensures ok ==> trueIterator.Valid() && falseIterator.Valid()
    ensures ok ==> trueIterator.pos == old(trueIterator.pos) % |trueIterator.owner.orig| + 1
    ensures ok ==> falseIterator.pos == old(falseIterator.pos) % |falseIterator.owner.orig| + 1
    ensures ok ==> trueIterator.owner.completedAtLeastOnce == (old(trueIterator.owner.completedAtLeastOnce) || old(trueIterator.pos) == |trueIterator.owner.orig|)
    ensures ok ==> falseIterator.owner.completedAtLeastOnce == (old(falseIterator.owner.completedAtLeastOnce) || old(falseIterator.pos) == |falseIterator.owner.orig|)
    ensures ok ==> |tuple| == arr.Length
    ensures ok ==> forall j :: 0 <= j < |trueIdx| ==> tuple[trueIdx[j]] == trueIterator.owner.orig[old(trueIterator.pos) % |trueIterator.owner.orig|][j]
    ensures ok ==> forall j :: 0 <= j < |falseIdx| ==> tuple[falseIdx[j]] == falseIterator.owner.orig[old(falseIterator.pos) % |falseIterator.owner.orig|][j]
  {
    tuple := [];
    var t := trueIterator.Next();
    ok := WriteBack(arr, trueIdx, t);
    if !ok {
      return;
    }
    ghost var afterTrue := arr[..];
    var f := falseIterator.Next();
    ok := WriteBack(arr, falseIdx, f);
    if !ok {
      return;
    }
    forall j | 0 <= j < |trueIdx|
      ensures arr[trueIdx[j]] == afterTrue[trueIdx[j]]
    {
      assert trueIdx[j] !in falseIdx;
    }
    tuple := arr[..];
  }

  /**
   * The merging loop of `Partitioned`: both providers restart forever, and
   * each round writes their tuples back at the indices of their side.  With
   * `stop`, the loop ends once both have restarted, which happens after one
   * round more than the longer one has tuples.
   */
  method MergeLoop<V(0)>(n: nat, trueIdx: seq<nat>, falseIdx: seq<nat>, ts: seq<seq<V>>, fs: seq<seq<V>>,
                         tLen: nat, fLen: nat, stop: bool, limit: nat)
    returns (r: Result<seq<seq<V>>, string>)
    requires Distinct(trueIdx, n) && Distinct(falseIdx, n) && Disjoint(trueIdx, falseIdx)
    requires TupleLengths(ts, tLen) && TupleLengths(fs, fLen)
    requires tLen >= |trueIdx| && fLen >= |falseIdx|
    ensures r.Err? <==> limit > 0 && (ts == [] || fs == [] || tLen > |trueIdx| || fLen > |falseIdx|)
    ensures r.Ok? ==> |r.value| == MergedCount(stop, limit, |ts|, |fs|)
    ensures r.Ok? ==> MergedFrom(r.value, n, trueIdx, falseIdx, ts, fs)
  {
    if limit == 0 {
      return Ok([]);
    }
    var trueIterable := new InfiniteRestartingIterable(ts);
    var trueIter := trueIterable.Iterator();
    if trueIter.Err? {
      return Err(trueIter.error);
    }
    var falseIterable := new InfiniteRestartingIterable(fs);
    var falseIter := falseIterable.Iterator();
    if falseIter.Err? {
      return Err(falseIter.error);
    }
    var trueIterator := trueIter.value;
    var falseIterator := falseIter.value;
    var arr := new V[n];
    var out: seq<seq<V>> := [];
    while (!stop || !trueIterable.completedAtLeastOnce || !falseIterable.completedAtLeastOnce) && |out| < limit
      invariant trueIterator.owner == trueIterable && falseIterator.owner == falseIterable
      invariant trueIterable != falseIterable && trueIterator != falseIterator
      invariant trueIterator.Valid() && falseIterator.Valid()
      invariant trueIterator.pos == PosAfter(|out|, |ts|) && falseIterator.pos == PosAfter(|out|, |fs|)
      invariant trueIterable.completedAtLeastOnce <==> |out| > |ts|
      invariant falseIterable.completedAtLeastOnce <==> |out| > |fs|
      invariant |out| <= MergedCount(stop, limit, |ts|, |fs|)
      invariant |out| > 0 ==> tLen <= |trueIdx| && fLen <= |falseIdx|
      invariant forall k :: 0 <= k < |out| ==> |out[k]| == n
      invariant SideFrom(out, trueIdx, ts) && SideFrom(out, falseIdx, fs)
      decreases limit - |out|
    {
      PosAfterStep(|out|, |ts|);
      PosAfterStep(|out|, |fs|);
      var ok, tuple := MergeRound(trueIterator, falseIterator, arr, trueIdx, falseIdx, tLen, fLen);
      if !ok {
        return Err("Index out of bounds");
      }
      SideAppend(out, tuple, trueIdx, ts);
      SideAppend(out, tuple, falseIdx, fs);
      out := out + [tuple];
    }
    r := Ok(out);
  }

  /** The indices of the generators that satisfy the predicate, and of those that do not, are distinct, disjoint and in range. */
  lemma PartitionIndices(flags: seq<bool>)
    ensures Distinct(IndicesWhere(flags, true), |flags|) && Distinct(IndicesWhere(flags, false), |flags|)
    ensures Disjoint(IndicesWhere(flags, true), IndicesWhere(flags, false))
    ensures |IndicesWhere(flags, true)| + |IndicesWhere(flags, false)| == |flags|
  {
    IndicesSplit(flags);
    var t, f := IndicesWhere(flags, true), IndicesWhere(flags, false);
    forall j | 0 <= j < |t|
      ensures t[j] !in f
    {
      assert t[j] in t;
    }
  }

  /**
   * `Partitioned.iterator()` as written.  `flags[i]` is the predicate on
   * generator i (`partition` calls it once per generator, in order).  With
   * one side empty it delegates; otherwise both providers are handed the
   * whole `gens`, their tuples are longer than their side's index list, and
   * the first write-back past the end throws.
   */
  method PartitionedAsWritten<V(0)>(gens: seq<Gen<V>>, flags: seq<bool>, trueProvider: Provider<V>, falseProvider: Provider<V>,
                                    stop: bool, limit: nat)
    returns (r: Result<seq<seq<V>>, string>)
    requires |flags| == |gens|
    requires ProviderShape(trueProvider, gens) && ProviderShape(falseProvider, gens)
    ensures SameOutcome(r, Delegate(PartitionPassAsWritten(gens, flags, trueProvider, falseProvider), limit))
  {
    var trueIdx := IndicesWhere(flags, true);
    var falseIdx := IndicesWhere(flags, false);
    if falseIdx == [] {
      return Delegate(trueProvider(gens), limit);
    }
    if trueIdx == [] {
      return Delegate(falseProvider(gens), limit);
    }
    PartitionIndices(flags);
    r := MergeProviders(|gens|, trueIdx, falseIdx, trueProvider(gens), falseProvider(gens), |gens|, |gens|, stop, limit);
  }

  /**
   * The merging half of `Partitioned`, lazily started: nothing happens
   * until the first tuple is taken, then each provider's exception surfaces.
   */
  method MergeProviders<V(0)>(n: nat, trueIdx: seq<nat>, falseIdx: seq<nat>, tPass: Result<seq<seq<V>>, string>,
                              fPass: Result<seq<seq<V>>, string>, tLen: nat, fLen: nat, stop: bool, limit: nat)
    returns (r: Result<seq<seq<V>>, string>)
    requires Distinct(trueIdx, n) && Distinct(falseIdx, n) && Disjoint(trueIdx, falseIdx)
    requires tPass.Ok? ==> TupleLengths(tPass.value, tLen)
    requires fPass.Ok? ==> TupleLengths(fPass.value, fLen)
    requires tLen >= |trueIdx| && fLen >= |falseIdx|
    ensures r.Err? <==> limit > 0 && (tPass.Err? || fPass.Err? || tPass.value == [] || fPass.value == [] || tLen > |trueIdx| || fLen > |falseIdx|)
    ensures r.Ok? && limit > 0 ==> |r.value| == MergedCount(stop, limit, |tPass.value|, |fPass.value|)
    ensures r.Ok? && limit > 0 ==> MergedFrom(r.value, n, trueIdx, falseIdx, tPass.value, fPass.value)
    ensures limit == 0 ==> r == Ok([])
  {
    if limit == 0 {
      return Ok([]);
    }
    if tPass.Err? {
      return Err(tPass.error);
    }
    if fPass.Err? {
      return Err(fPass.error);
    }
    r := MergeLoop(n, trueIdx, falseIdx, tPass.value, fPass.value, tLen, fLen, stop, limit);
  }

  /**
   * `Partitioned.iterator()` as intended: each provider is handed the
   * generators of its own side, so its tuples fit that side's index list.
   */
  method PartitionedCorrected<V(0)>(gens: seq<Gen<V>>, flags: seq<bool>, trueProvider: Provider<V>, falseProvider: Provider<V>,
                                    stop: bool, limit: nat)
    returns (r: Result<seq<seq<V>>, string>)
    requires |flags| == |gens|
    requires ProviderShape(trueProvider, Select(gens, IndicesWhere(flags, true)))
    requires ProviderShape(falseProvider, Select(gens, IndicesWhere(flags, false)))
    ensures IndicesWhere(flags, false) == [] ==> r == Delegate(trueProvider(gens), limit)
    ensures IndicesWhere(flags, false) != [] && IndicesWhere(flags, true) == [] ==> r == Delegate(falseProvider(gens), limit)
    ensures IndicesWhere(flags, false) != [] && IndicesWhere(flags, true) != [] ==>
      var tPass := trueProvider(Select(gens, IndicesWhere(flags, true)));
      var fPass := falseProvider(Select(gens, IndicesWhere(flags, false)));
      (r.Err? <==> limit > 0 && (tPass.Err? || fPass.Err? || tPass.value == [] || fPass.value == [])) &&
      (r.Ok? && limit > 0 ==> |r.value| == MergedCount(stop, limit, |tPass.value|, |fPass.value|) &&
                              MergedFrom(r.value, |gens|, IndicesWhere(flags, true), IndicesWhere(flags, false), tPass.value, fPass.value))
  {
    var trueIdx := IndicesWhere(flags, true);
    var falseIdx := IndicesWhere(flags, false);
    if falseIdx == [] {
      return Delegate(trueProvider(gens), limit);
    }
    if trueIdx == [] {
      return Delegate(falseProvider(gens), limit);
    }
    PartitionIndices(flags);
    r := MergeProviders(|gens|, trueIdx, falseIdx, trueProvider(Select(gens, trueIdx)), falseProvider(Select(gens, falseIdx)),
                        |trueIdx|, |falseIdx|, stop, limit);
  }

  /**
   * The pass of a partitioned provider whose two providers both receive the
   * whole `gens`: when both sides are non-empty, the first tuple already
   * writes past the end of a side's index list.
   */
  function PartitionPassAsWritten<V>(gens: seq<Gen<V>>, flags: seq<bool>, trueProvider: Provider<V>, falseProvider: Provider<V>)
    : (r: Result<seq<seq<V>>, string>)
    requires |flags| == |gens|
  {
    if IndicesWhere(flags, false) == [] then trueProvider(gens)
    else if IndicesWhere(flags, true) == [] then falseProvider(gens)
    else Err("Index out of bounds")
  }

  /** Whatever the providers yield, a partition with both sides non-empty yields nothing and fails. */
  lemma MixedPartitionFails<V>(gens: seq<Gen<V>>, flags: seq<bool>, trueProvider: Provider<V>, falseProvider: Provider<V>, limit: nat)
    requires |flags| == |gens|
    requires ProviderShape(trueProvider, gens) && ProviderShape(falseProvider, gens)
    requires exists i :: 0 <= i < |flags| && flags[i]
    requires exists i :: 0 <= i < |flags| && !flags[i]
    ensures PartitionPassAsWritten(gens, flags, trueProvider, falseProvider).Err?
    ensures Delegate(PartitionPassAsWritten(gens, flags, trueProvider, falseProvider), limit).Err? <==> limit > 0
  {
    var i :| 0 <= i < |flags| && flags[i];
    var i' :| 0 <= i' < |flags| && !flags[i'];
    assert i in IndicesWhere(flags, true);
    assert i' in IndicesWhere(flags, false);
  }

  // ------------------------------------------------------ fixed and unfixed size

  /** `consideredFixed` apart from the counter: a collection of at most maxCount values. */
  predicate FixedCandidate<V>(g: Gen<V>, maxCount: int)
  {
    g.isCollection && |g.values| <= maxCount
  }

  function CountTrue(flags: seq<bool>): (r: nat)
    ensures r <= |flags|
  {
    if flags == [] then 0 else CountTrue(flags[..|flags| - 1]) + (if flags[|flags| - 1] then 1 else 0)
  }

  /** How many generators are fixed candidates. */
  function CountCandidates<V>(gens: seq<Gen<V>>, maxCount: int): nat
  {
    if gens == [] then 0 else CountCandidates(gens[..|gens| - 1], maxCount) + (if FixedCandidate(gens[|gens| - 1], maxCount) then 1 else 0)
  }

  /**
   * The predicate of `SeparateFixedAndUnfixedSize`, applied to each generator
   * in order: a candidate is fixed while fewer than maxParams are.
   */
  function FixedFlagsOf<V>(gens: seq<Gen<V>>, maxCount: int, maxParams: int): (r: seq<bool>)
    ensures |r| == |gens|
  {
    if gens == [] then []
    else
      var init := FixedFlagsOf(gens[..|gens| - 1], maxCount, maxParams);
      init + [FixedCandidate(gens[|gens| - 1], maxCount) && CountTrue(init) < maxParams]
  }

  /** The flags, computed with the `seenFixed` counter that `iterator()` starts at zero. */
  method FixedFlags<V>(gens: seq<Gen<V>>, maxCount: int, maxParams: int) returns (flags: seq<bool>)
    ensures flags == FixedFlagsOf(gens, maxCount, maxParams)
  {
    var seenFixed := 0;
    flags := [];
    for i := 0 to |gens|
      invariant flags == FixedFlagsOf(gens[..i], maxCount, maxParams)
      invariant seenFixed == CountTrue(flags)
    {
      FixedFlagsStep(gens, maxCount, maxParams, i);
      var consideredFixed := FixedCandidate(gens[i], maxCount) && seenFixed < maxParams;
      if consideredFixed {
        seenFixed := seenFixed + 1;
      }
      flags := flags + [consideredFixed];
    }
    assert gens[..|gens|] == gens;
  }

  /** One more generator appends one flag, and the count grows with it. */
  lemma FixedFlagsStep<V>(gens: seq<Gen<V>>, maxCount: int, maxParams: int, i: nat)
    requires i < |gens|
    ensures var init := FixedFlagsOf(gens[..i], maxCount, maxParams);
      var flag := FixedCandidate(gens[i], maxCount) && CountTrue(init) < maxParams;
      FixedFlagsOf(gens[..i + 1], maxCount, maxParams) == init + [flag] &&
      CountTrue(init + [flag]) == CountTrue(init) + (if flag then 1 else 0)
  {
    assert gens[..i + 1][..i] == gens[..i];
    var init := FixedFlagsOf(gens[..i], maxCount, maxParams);
    var flag := FixedCandidate(gens[i], maxCount) && CountTrue(init) < maxParams;
    assert (init + [flag])[..|init + [flag]| - 1] == init;
  }

  /** A prefix of the flags is the flags of the prefix. */
  lemma {:induction false} FixedFlagsPrefix<V>(gens: seq<Gen<V>>, maxCount: int, maxParams: int, i: nat)
    requires i <= |gens|
    ensures FixedFlagsOf(gens, maxCount, maxParams)[..i] == FixedFlagsOf(gens[..i], maxCount, maxParams)
    decreases |gens|
  {
    if i < |gens| {
      FixedFlagsPrefix(gens[..|gens| - 1], maxCount, maxParams, i);
      assert gens[..|gens| - 1][..i] == gens[..i];
    } else {
      assert gens[..i] == gens;
    }
  }

  /** Generator i is fixed iff it is a candidate and fewer than maxParams before it are fixed. */
  lemma FixedFlagsPointwise<V>(gens: seq<Gen<V>>, maxCount: int, maxParams: int, i: nat)
    requires i < |gens|
    ensures var flags := FixedFlagsOf(gens, maxCount, maxParams);
      flags[i] <==> FixedCandidate(gens[i], maxCount) && CountTrue(flags[..i]) < maxParams
  {
    var flags := FixedFlagsOf(gens, maxCount, maxParams);
    FixedFlagsPrefix(gens, maxCount, maxParams, i + 1);
    FixedFlagsPrefix(gens, maxCount, maxParams, i);
    assert gens[..i + 1][..i] == gens[..i];
    assert flags[..i + 1][..i] == flags[..i];
  }

  /** Exactly min(candidates, maxParams) generators are fixed. */
  lemma {:induction false} FixedFlagsCount<V>(gens: seq<Gen<V>>, maxCount: int, maxParams: int)
    ensures var bound := if maxParams < 0 then 0 else maxParams;
      CountTrue(FixedFlagsOf(gens, maxCount, maxParams)) == Min(CountCandidates(gens, maxCount), bound)
  {
    if gens != [] {
      FixedFlagsCount(gens[..|gens| - 1], maxCount, maxParams);
      var flags := FixedFlagsOf(gens, maxCount, maxParams);
      assert flags[..|flags| - 1] == FixedFlagsOf(gens[..|gens| - 1], maxCount, maxParams);
    }
  }

  /**
   * `SeparateFixedAndUnfixedSize.iterator()`: a partition by the fixed flags,
   * the fixed generators to `fixedSizeProvider` and the rest to
   * `unfixedSizeProvider`, both handed the whole `gens`.
   */
  method SeparateFixedAndUnfixedSize<V(0)>(gens: seq<Gen<V>>, fixedSizeProvider: Provider<V>, unfixedSizeProvider: Provider<V>,
                                           stop: bool, maxCount: int, maxParams: int, limit: nat)
    returns (r: Result<seq<seq<V>>, string>)
    requires ProviderShape(fixedSizeProvider, gens) && ProviderShape(unfixedSizeProvider, gens)
    ensures SameOutcome(r, Delegate(SeparatePass(gens, fixedSizeProvider, unfixedSizeProvider, maxCount, maxParams), limit))
  {
    var flags := FixedFlags(gens, maxCount, maxParams);
    r := PartitionedAsWritten(gens, flags, fixedSizeProvider, unfixedSizeProvider, stop, limit);
  }

  /** The pass of `SeparateFixedAndUnfixedSize`. */
  function SeparatePass<V>(gens: seq<Gen<V>>, fixedSizeProvider: Provider<V>, unfixedSizeProvider: Provider<V>, maxCount: int, maxParams: int)
    : Result<seq<seq<V>>, string>
  {
    PartitionPassAsWritten(gens, FixedFlagsOf(gens, maxCount, maxParams), fixedSizeProvider, unfixedSizeProvider)
  }

  /** With at most maxParams generators, all of them candidates, every generator is fixed. */
  lemma AllFixed<V>(gens: seq<Gen<V>>, maxCount: int, maxParams: int)
    requires |gens| <= maxParams && forall i :: 0 <= i < |gens| ==> FixedCandidate(gens[i], maxCount)
    ensures IndicesWhere(FixedFlagsOf(gens, maxCount, maxParams), false) == []
  {
    var flags := FixedFlagsOf(gens, maxCount, maxParams);
    forall i | 0 <= i < |gens|
      ensures flags[i]
    {
      FixedFlagsPointwise(gens, maxCount, maxParams, i);
      assert CountTrue(flags[..i]) <= i;
    }
  }

  /** When no generator is a candidate, none is fixed. */
  lemma NoneFixed<V>(gens: seq<Gen<V>>, maxCount: int, maxParams: int)
    requires forall i :: 0 <= i < |gens| ==> !FixedCandidate(gens[i], maxCount)
    ensures IndicesWhere(FixedFlagsOf(gens, maxCount, maxParams), true) == []
    ensures gens != [] ==> IndicesWhere(FixedFlagsOf(gens, maxCount, maxParams), false) != []
  {
    var flags := FixedFlagsOf(gens, maxCount, maxParams);
    var fixed := IndicesWhere(flags, true);
    if fixed != [] {
      FixedFlagsPointwise(gens, maxCount, maxParams, fixed[0]);
    }
    if gens != [] {
      FixedFlagsPointwise(gens, maxCount, maxParams, 0);
      assert 0 in IndicesWhere(flags, false);
    }
  }

  /** A few small collections all go to the fixed-size provider. */
  lemma SeparateAllFixed<V>(gens: seq<Gen<V>>, fixedSizeProvider: Provider<V>, unfixedSizeProvider: Provider<V>, maxCount: int, maxParams: int)
    requires |gens| <= maxParams && forall i :: 0 <= i < |gens| ==> FixedCandidate(gens[i], maxCount)
    ensures SeparatePass(gens, fixedSizeProvider, unfixedSizeProvider, maxCount, maxParams) == fixedSizeProvider(gens)
  {
    AllFixed(gens, maxCount, maxParams);
  }

  /** Generators that are not small collections all go to the unfixed-size provider. */
  lemma SeparateNoneFixed<V>(gens: seq<Gen<V>>, fixedSizeProvider: Provider<V>, unfixedSizeProvider: Provider<V>, maxCount: int, maxParams: int)
    requires gens != [] && forall i :: 0 <= i < |gens| ==> !FixedCandidate(gens[i], maxCount)
    ensures SeparatePass(gens, fixedSizeProvider, unfixedSizeProvider, maxCount, maxParams) == unfixedSizeProvider(gens)
  {
    NoneFixed(gens, maxCount, maxParams);
  }

  // ------------------------------------------------------ even single param change

  /** The length of the longest pass among the generators. */
  function MaxLen<V>(gens: seq<Gen<V>>): nat
  {
    if gens == [] then 0
    else
      var m := MaxLen(gens[..|gens| - 1]);
      var last := |gens[|gens| - 1].values|;
      if m < last then last else m
  }

  /** MaxLen bounds every pass and is the length of one of them. */
  lemma {:induction false} MaxLenIsMax<V>(gens: seq<Gen<V>>)
    ensures forall i :: 0 <= i < |gens| ==> |gens[i].values| <= MaxLen(gens)
    ensures gens != [] ==> exists i :: 0 <= i < |gens| && |gens[i].values| == MaxLen(gens)
  {
    if gens != [] {
      var init := gens[..|gens| - 1];
      MaxLenIsMax(init);
      assert forall i :: 0 <= i < |init| ==> init[i] == gens[i];
      var last := |gens| - 1;
      if MaxLen(gens) == |gens[last].values| {
        assert 0 <= last < |gens|;
      } else {
        assert MaxLen(gens) == MaxLen(init) && init != [];
        var i :| 0 <= i < |init| && |init[i].values| == MaxLen(init);
        assert |gens[i].values| == MaxLen(gens);
      }
    }
  }

  /** Some generator yields nothing. */
  predicate AnyEmpty<V>(gens: seq<Gen<V>>)
  {
    exists i :: 0 <= i < |gens| && gens[i].values == []
  }

  /** Round k: every generator at its k-th value, each restarting when it runs out. */
  function EvenTuple<V>(gens: seq<Gen<V>>, k: nat): (t: seq<V>)
    requires !AnyEmpty(gens)
    ensures |t| == |gens|
  {
    seq(|gens|, i requires 0 <= i < |gens| => gens[i].values[k % |gens[i].values|])
  }

  function EvenTuples<V>(gens: seq<Gen<V>>, count: nat): (ts: seq<seq<V>>)
    requires !AnyEmpty(gens)
    ensures |ts| == count && forall k :: 0 <= k < count ==> ts[k] == EvenTuple(gens, k)
  {
    seq(count, k requires 0 <= k < count => EvenTuple(gens, k))
  }

  /**
   * The pass of `EvenSingleParamChange` with `completeWhenAllCycledAtLeastOnce`:
   * one round per value of the longest generator.  An empty generator among
   * non-empty ones makes the first `next()` throw.
   */
  function EvenPass<V>(gens: seq<Gen<V>>): Result<seq<seq<V>>, string>
  {
    if MaxLen(gens) == 0 then Ok([])
    else if AnyEmpty(gens) then Err("NoSuchElementException")
    else Ok(EvenTuples(gens, MaxLen(gens)))
  }

  /** What a consumer taking at most `limit` tuples gets, with or without the completion flag. */
  function EvenSpec<V>(gens: seq<Gen<V>>, completeWhenAllCycled: bool, limit: nat): Result<seq<seq<V>>, string>
  {
    if completeWhenAllCycled then Delegate(EvenPass(gens), limit)
    else if limit == 0 then Ok([])
    else if AnyEmpty(gens) then Err("NoSuchElementException")
    else Ok(EvenTuples(gens, limit))
  }

  /** One iterator's position and cycled flag at the start of round k over a pass of L values. */
  predicate FoldReady(L: nat, p: nat, cycled: bool, k: nat)
  {
    (L > 0 ==> p == PosAfter(k, L)) && (L == 0 ==> p == 0) && (cycled <==> k > L)
  }

  /** The fold's step on one iterator: restarted iff exhausted, and then cycled iff k >= L. */
  lemma FoldStep(L: nat, p: nat, cycled: bool, k: nat)
    requires FoldReady(L, p, cycled, k)
    ensures (if p == L then 0 else p) == (if L == 0 then 0 else k % L)
    ensures (cycled || p == L) <==> k >= L
  {
    if L > 0 {
      PosAfterStep(k, L);
    }
  }

  /** The state of the iterator arrays at the start of round k. */
  ghost predicate EvenState<V>(gens: seq<Gen<V>>, pos: array<nat>, cycleComplete: array<bool>, k: nat)
    reads pos, cycleComplete
  {
    pos.Length == |gens| && cycleComplete.Length == |gens| &&
    (k > 0 ==> !AnyEmpty(gens)) &&
    forall i :: 0 <= i < |gens| ==> FoldReady(|gens[i].values|, pos[i], cycleComplete[i], k)
  }

  /**
   * The `foldIndexed` of round k: restart every exhausted iterator and mark
   * it as having cycled; the round is complete once all have.
   */
  method EvenFold<V>(gens: seq<Gen<V>>, pos: array<nat>, cycleComplete: array<bool>, ghost k: nat) returns (complete: bool)
    requires EvenState(gens, pos, cycleComplete, k)
    modifies pos, cycleComplete
    ensures complete <==> MaxLen(gens) <= k
    ensures forall i :: 0 <= i < |gens| ==> pos[i] == (if |gens[i].values| == 0 then 0 else k % |gens[i].values|)
    ensures forall i :: 0 <= i < |gens| ==> (cycleComplete[i] <==> k >= |gens[i].values|)
  {
    complete := true;
    for index := 0 to |gens|
      invariant complete <==> forall i :: 0 <= i < index ==> |gens[i].values| <= k
      invariant forall i :: 0 <= i < index ==> pos[i] == (if |gens[i].values| == 0 then 0 else k % |gens[i].values|)
      invariant forall i :: 0 <= i < index ==> (cycleComplete[i] <==> k >= |gens[i].values|)
      invariant forall i :: index <= i < |gens| ==> pos[i] == old(pos[i]) && cycleComplete[i] == old(cycleComplete[i])
    {
      FoldStep(|gens[index].values|, pos[index], cycleComplete[index], k);
      if pos[index] == |gens[index].values| {
        cycleComplete[index] := true;
        pos[index] := 0;
      }
      complete := complete && cycleComplete[index];
    }
    MaxLenIsMax(gens);
    if !complete {
      ghost var i :| 0 <= i < |gens| && |gens[i].values| > k;
    }
  }

  /** `iters.map { it.next() }`: every generator's next value, or the exception of an empty one. */
  method EvenNext<V>(gens: seq<Gen<V>>, pos: array<nat>, ghost k: nat) returns (r: Result<seq<V>, string>)
    requires pos.Length == |gens|
    requires forall i :: 0 <= i < |gens| ==> pos[i] == (if |gens[i].values| == 0 then 0 else k % |gens[i].values|)
    modifies pos
    ensures r.Err? <==> AnyEmpty(gens)
    ensures r.Ok? ==> r.value == EvenTuple(gens, k)
    ensures r.Ok? ==> forall i :: 0 <= i < |gens| ==> pos[i] == k % |gens[i].values| + 1
  {
    var tuple := [];
    for index := 0 to |gens|
      invariant |tuple| == index
      invariant forall i :: 0 <= i < index ==> |gens[i].values| > 0 && tuple[i] == gens[i].values[k % |gens[i].values|]
      invariant forall i :: 0 <= i < index ==> pos[i] == k % |gens[i].values| + 1
      invariant forall i :: index <= i < |gens| ==> pos[i] == old(pos[i])
    {
      if pos[index] >= |gens[index].values| {
        return Err("NoSuchElementException");
      }
      tuple := tuple + [gens[index].values[pos[index]]];
      pos[index] := pos[index] + 1;
    }
    r := Ok(tuple);
  }

  /** What one round of the loop does: stop, throw, or yield a tuple. */
  datatype Round<V> = Stop | Fail(message: string) | Yield(tuple: seq<V>)

  /** `gens.map { it.iterator() }` and `BooleanArray(gens.size)`: every iterator at the start, none cycled. */
  method EvenStart<V>(gens: seq<Gen<V>>) returns (pos: array<nat>, cycleComplete: array<bool>)
    ensures fresh(pos) && fresh(cycleComplete)
    ensures EvenState(gens, pos, cycleComplete, 0)
  {
    pos := new nat[|gens|](_ => 0);
    cycleComplete := new bool[|gens|](_ => false);
  }

  /** Round k of the loop: the fold, the completion check, then every generator's `next()`. */
  method EvenRound<V>(gens: seq<Gen<V>>, pos: array<nat>, cycleComplete: array<bool>, completeWhenAllCycled: bool, ghost k: nat)
    returns (r: Round<V>)
    requires EvenState(gens, pos, cycleComplete, k)
    modifies pos, cycleComplete
    ensures r.Stop? <==> completeWhenAllCycled && MaxLen(gens) <= k
    ensures r.Fail? <==> !(completeWhenAllCycled && MaxLen(gens) <= k) && AnyEmpty(gens)
    ensures r.Yield? ==> !AnyEmpty(gens) && r.tuple == EvenTuple(gens, k) && EvenState(gens, pos, cycleComplete, k + 1)
  {
    var complete := EvenFold(gens, pos, cycleComplete, k);
    if completeWhenAllCycled && complete {
      return Stop;
    }
    var next := EvenNext(gens, pos, k);
    if next.Err? {
      return Fail(next.error);
    }
    EvenStateNext(gens, pos, cycleComplete, k);
    r := Yield(next.value);
  }

  /**
   * `EvenSingleParamChange.iterator()`: every round advances every generator
   * and restarts the exhausted ones; with the flag it stops, before
   * yielding, at the first round in which every generator has run out at
   * least once.  Without it, only the consumer's `limit` ends the loop.
   */
  method EvenSingleParamChange<V>(gens: seq<Gen<V>>, completeWhenAllCycled: bool, limit: nat) returns (r: Result<seq<seq<V>>, string>)
    ensures SameOutcome(r, EvenSpec(gens, completeWhenAllCycled, limit))
  {
    var pos, cycleComplete := EvenStart(gens);
    var out: seq<seq<V>> := [];
    while |out| < limit
      invariant EvenState(gens, pos, cycleComplete, |out|)
      invariant completeWhenAllCycled ==> |out| <= MaxLen(gens)
      invariant |out| > 0 ==> !AnyEmpty(gens) && forall j :: 0 <= j < |out| ==> out[j] == EvenTuple(gens, j)
      invariant |out| <= limit
      decreases limit - |out|
    {
      var round := EvenRound(gens, pos, cycleComplete, completeWhenAllCycled, |out|);
      if round.Stop? {
        break;
      }
      if round.Fail? {
        EvenSpecFail(gens, completeWhenAllCycled, limit, |out|);
        return Err(round.message);
      }
      out := out + [round.tuple];
    }
    EvenSpecOk(gens, completeWhenAllCycled, limit, out);
    r := Ok(out);
  }

  /** After round k's fold and `next()` calls, the arrays are in the state of round k + 1. */
  lemma EvenStateNext<V>(gens: seq<Gen<V>>, pos: array<nat>, cycleComplete: array<bool>, k: nat)
    requires pos.Length == |gens| && cycleComplete.Length == |gens| && !AnyEmpty(gens)
    requires forall i :: 0 <= i < |gens| ==> pos[i] == k % |gens[i].values| + 1
    requires forall i :: 0 <= i < |gens| ==> (cycleComplete[i] <==> k >= |gens[i].values|)
    ensures EvenState(gens, pos, cycleComplete, k + 1)
  {
    forall i | 0 <= i < |gens|
      ensures FoldReady(|gens[i].values|, pos[i], cycleComplete[i], k + 1)
    {
      assert gens[i].values != [];
      PosAfterStep(k, |gens[i].values|);
    }
  }

  /** A consumer that takes rounds 0 .. |out| - 1 without an exception gets what the specification says. */
  lemma EvenSpecOk<V>(gens: seq<Gen<V>>, completeWhenAllCycled: bool, limit: nat, out: seq<seq<V>>)
    requires completeWhenAllCycled ==> |out| == Min(MaxLen(gens), limit)
    requires !completeWhenAllCycled ==> |out| == limit
    requires |out| > 0 ==> !AnyEmpty(gens) && forall j :: 0 <= j < |out| ==> out[j] == EvenTuple(gens, j)
    ensures EvenSpec(gens, completeWhenAllCycled, limit) == Ok(out)
  {
    if |out| > 0 {
      assert out == EvenTuples(gens, |out|);
      if completeWhenAllCycled {
        assert EvenTuples(gens, MaxLen(gens))[..|out|] == out;
      }
    }
  }

  /** An exception in round k, the first round with a tuple to take, is what the specification says. */
  lemma EvenSpecFail<V>(gens: seq<Gen<V>>, completeWhenAllCycled: bool, limit: nat, k: nat)
    requires k < limit && (k > 0 ==> !AnyEmpty(gens))
    requires !(completeWhenAllCycled && MaxLen(gens) <= k) && AnyEmpty(gens)
    ensures EvenSpec(gens, completeWhenAllCycled, limit).Err?
  {
  }

  /** Every value of every generator shows up in the first pass: value v of generator i in round v. */
  lemma EvenPassCoversEveryValue<V>(gens: seq<Gen<V>>, i: nat, v: nat)
    requires i < |gens| && v < |gens[i].values|
    ensures EvenPass(gens).Err? <==> AnyEmpty(gens)
    ensures EvenPass(gens).Ok? ==> v < |EvenPass(gens).value| && EvenPass(gens).value[v][i] == gens[i].values[v]
  {
    MaxLenIsMax(gens);
    assert MaxLen(gens) > 0;
    ModUnique(v, 0, |gens[i].values|, v);
  }

  // ------------------------------------------------------ all permutations

  /** Each tuple of rest with x in front. */
  function PrependAll<V>(x: V, rest: seq<seq<V>>): (r: seq<seq<V>>)
    ensures |r| == |rest| && forall j :: 0 <= j < |rest| ==> r[j] == [x] + rest[j]
  {
    seq(|rest|, j requires 0 <= j < |rest| => [x] + rest[j])
  }

  /** For each x of xs in order, every tuple of rest with x in front. */
  function Expand<V>(xs: seq<V>, rest: seq<seq<V>>): seq<seq<V>>
  {
    if xs == [] then [] else Expand(xs[..|xs| - 1], rest) + PrependAll(xs[|xs| - 1], rest)
  }

  /** The cartesian product of the value lists, the last list varying fastest. */
  function Tuples<V>(vals: seq<seq<V>>): seq<seq<V>>
    decreases |vals|
  {
    if vals == [] then [[]] else Expand(vals[0], Tuples(vals[1..]))
  }

  /** Each tuple of ts with the prefix in front. */
  function WithPrefix<V>(prefix: seq<V>, ts: seq<seq<V>>): (r: seq<seq<V>>)
    ensures |r| == |ts| && forall j :: 0 <= j < |ts| ==> r[j] == prefix + ts[j]
  {
    seq(|ts|, j requires 0 <= j < |ts| => prefix + ts[j])
  }

  /** The pass of `AllPermutations`: `gens[0]` throws on an empty list. */
  function AllPermutationsPass<V>(gens: seq<Gen<V>>): Result<seq<seq<V>>, string>
  {
    if gens == [] then Err("Index out of bounds") else Ok(Tuples(ValuesOf(gens)))
  }

  lemma WithPrefixAppend<V>(prefix: seq<V>, ts: seq<seq<V>>, us: seq<seq<V>>)
    ensures WithPrefix(prefix, ts + us) == WithPrefix(prefix, ts) + WithPrefix(prefix, us)
  {
  }

  lemma WithPrefixPrepend<V>(prefix: seq<V>, x: V, ts: seq<seq<V>>)
    ensures WithPrefix(prefix + [x], ts) == WithPrefix(prefix, PrependAll(x, ts))
  {
    forall j | 0 <= j < |ts|
      ensures (prefix + [x]) + ts[j] == prefix + ([x] + ts[j])
    {
    }
  }

  /**
   * `applyPermutation(index, workingSet)`: every value of generator `index`
   * in turn at `workingSet[index]`, then, at the last generator, a copy of
   * the array, or else the permutations of the generators after it.
   */
  method ApplyPermutation<V>(gens: seq<Gen<V>>, index: nat, workingSet: array<V>) returns (out: seq<seq<V>>)
    requires index < |gens| == workingSet.Length
    modifies workingSet
    ensures out == WithPrefix(old(workingSet[..index]), Tuples(ValuesOf(gens)[index..]))
    ensures workingSet[..index] == old(workingSet[..index])
    decreases |gens| - index
  {
    ghost var prefix := workingSet[..index];
    ghost var rest := Tuples(ValuesOf(gens)[index + 1..]);
    assert ValuesOf(gens)[index..][1..] == ValuesOf(gens)[index + 1..];
    var vs := gens[index].values;
    out := [];
    for p := 0 to |vs|
      invariant workingSet[..index] == prefix
      invariant out == WithPrefix(prefix, Expand(vs[..p], rest))
    {
      assert vs[..p + 1][..p] == vs[..p];
      workingSet[index] := vs[p];
      assert workingSet[..index + 1] == prefix + [vs[p]];
      WithPrefixPrepend(prefix, vs[p], rest);
      ghost var added := WithPrefix(prefix, PrependAll(vs[p], rest));
      if index == |gens| - 1 {
        assert rest == [[]];
        assert [vs[p]] + [] == [vs[p]];
        assert PrependAll(vs[p], rest) == [[vs[p]]];
        assert workingSet[..] == workingSet[..index + 1];
        out := out + [workingSet[..]];
        assert [workingSet[..]] == added;
      } else {
        var sub := ApplyPermutation(gens, index + 1, workingSet);
        assert sub == added;
        out := out + sub;
      }
      assert Expand(vs[..p + 1], rest) == Expand(vs[..p], rest) + PrependAll(vs[p], rest);
      WithPrefixAppend(prefix, Expand(vs[..p], rest), PrependAll(vs[p], rest));
    }
    assert vs[..|vs|] == vs;
  }

  /** `AllPermutations.iterator()`. */
  method AllPermutations<V(0)>(gens: seq<Gen<V>>) returns (r: Result<seq<seq<V>>, string>)
    ensures r == AllPermutationsPass(gens)
  {
    if gens == [] {
      return Err("Index out of bounds");
    }
    var workingSet := new V[|gens|];
    var out := ApplyPermutation(gens, 0, workingSet);
    assert ValuesOf(gens)[0..] == ValuesOf(gens);
    forall j | 0 <= j < |out|
      ensures out[j] == Tuples(ValuesOf(gens))[j]
    {
      assert [] + Tuples(ValuesOf(gens))[j] == Tuples(ValuesOf(gens))[j];
    }
    assert out == Tuples(ValuesOf(gens));
    r := Ok(out);
  }

  /** The product of the list lengths. */
  function Product<V>(vals: seq<seq<V>>): nat
  {
    if vals == [] then 1 else |vals[0]| * Product(vals[1..])
  }

  lemma {:induction false} ExpandLength<V>(xs: seq<V>, rest: seq<seq<V>>)
    ensures |Expand(xs, rest)| == |xs| * |rest|
  {
    if xs != [] {
      ExpandLength(xs[..|xs| - 1], rest);
      assert (|xs| - 1) * |rest| + |rest| == |xs| * |rest|;
    }
  }

  /** Every tuple of the product has one value per list. */
  lemma {:induction false} TuplesShape<V>(vals: seq<seq<V>>)
    ensures TupleLengths(Tuples(vals), |vals|)
    decreases |vals|
  {
    if vals != [] {
      TuplesShape(vals[1..]);
      ExpandShape(vals[0], Tuples(vals[1..]), |vals| - 1);
    }
  }

  lemma {:induction false} ExpandShape<V>(xs: seq<V>, rest: seq<seq<V>>, n: nat)
    requires TupleLengths(rest, n)
    ensures TupleLengths(Expand(xs, rest), n + 1)
  {
    if xs != [] {
      ExpandShape(xs[..|xs| - 1], rest, n);
    }
  }

  /** The product has as many tuples as the lengths multiply to. */
  lemma {:induction false} TuplesCount<V>(vals: seq<seq<V>>)
    ensures |Tuples(vals)| == Product(vals)
    decreases |vals|
  {
    if vals != [] {
      TuplesCount(vals[1..]);
      ExpandLength(vals[0], Tuples(vals[1..]));
    }
  }

  /** Tuple a * |rest| + b of the expansion is xs[a] in front of rest[b]. */
  lemma {:induction false} ExpandIndex<V>(xs: seq<V>, rest: seq<seq<V>>, a: nat, b: nat)
    requires a < |xs| && b < |rest|
    ensures a * |rest| + b < |Expand(xs, rest)|
    ensures Expand(xs, rest)[a * |rest| + b] == [xs[a]] + rest[b]
  {
    var init := xs[..|xs| - 1];
    ExpandLength(init, rest);
    ExpandLength(xs, rest);
    if a < |xs| - 1 {
      ExpandIndex(init, rest, a, b);
    } else {
      assert a * |rest| == |init| * |rest|;
    }
  }

  /** The values the index vector ix picks, one from each list. */
  function Pick<V>(vals: seq<seq<V>>, ix: seq<nat>): (t: seq<V>)
    requires |ix| == |vals| && forall i :: 0 <= i < |vals| ==> ix[i] < |vals[i]|
    ensures |t| == |vals|
  {
    seq(|vals|, i requires 0 <= i < |vals| => vals[i][ix[i]])
  }

  /** The position of an index vector in mixed radix, the last index counting fastest. */
  function Rank<V>(vals: seq<seq<V>>, ix: seq<nat>): nat
    requires |ix| == |vals|
  {
    if vals == [] then 0 else ix[0] * Product(vals[1..]) + Rank(vals[1..], ix[1..])
  }

  /**
   * Every way of picking one value from each list is in the product, at
   * its mixed-radix position: the last generator varies fastest.
   */
  lemma {:induction false} TuplesIndex<V>(vals: seq<seq<V>>, ix: seq<nat>)
    requires |ix| == |vals| && forall i :: 0 <= i < |vals| ==> ix[i] < |vals[i]|
    ensures Rank(vals, ix) < |Tuples(vals)|
    ensures Tuples(vals)[Rank(vals, ix)] == Pick(vals, ix)
    decreases |vals|
  {
    if vals != [] {
      var rest := Tuples(vals[1..]);
      TuplesIndex(vals[1..], ix[1..]);
      TuplesCount(vals[1..]);
      ExpandIndex(vals[0], rest, ix[0], Rank(vals[1..], ix[1..]));
      assert [vals[0][ix[0]]] + Pick(vals[1..], ix[1..]) == Pick(vals, ix);
    }
  }

  /** The pass of `AllPermutations` fits the generators it was given. */
  lemma AllPermutationsShape<V>(gens: seq<Gen<V>>)
    ensures ProviderShape(AllPermutationsPass, gens)
  {
    TuplesShape(ValuesOf(gens));
  }

  /** The pass of `EvenSingleParamChange` fits the generators it was given. */
  lemma EvenPassShape<V>(gens: seq<Gen<V>>)
    ensures ProviderShape(EvenPass, gens)
  {
  }

  /** A parameter value of the example below: an int or a string. */
  datatype Arg = Num(n: int) | Str(s: string)

  lemma ExpandOne<V>(x: V, rest: seq<seq<V>>)
    ensures Expand([x], rest) == PrependAll(x, rest)
  {
    assert [x][..0] == [];
  }

  lemma ExpandTwo<V>(x: V, y: V, rest: seq<seq<V>>)
    ensures Expand([x, y], rest) == PrependAll(x, rest) + PrependAll(y, rest)
  {
    assert [x, y][..1] == [x];
    ExpandOne(x, rest);
  }

  lemma ExpandThree<V>(x: V, y: V, z: V, rest: seq<seq<V>>)
    ensures Expand([x, y, z], rest) == PrependAll(x, rest) + PrependAll(y, rest) + PrependAll(z, rest)
  {
    assert [x, y, z][..2] == [x, y];
    ExpandTwo(x, y, rest);
  }

  lemma PrependToEmpty<V>(x: V)
    ensures PrependAll(x, [[]]) == [[x]]
  {
    assert PrependAll(x, [[]])[0] == [x];
  }

  lemma PrependToSingles<V>(x: V, a: V, b: V, c: V)
    ensures PrependAll(x, [[a], [b], [c]]) == [[x, a], [x, b], [x, c]]
  {
    var r := PrependAll(x, [[a], [b], [c]]);
    assert r[0] == [x, a] && r[1] == [x, b] && r[2] == [x, c];
  }

  lemma PrependToPairs<V>(x: V, a1: V, b1: V, a2: V, b2: V, a3: V, b3: V)
    ensures PrependAll(x, [[a1, b1], [a2, b2], [a3, b3]]) == [[x, a1, b1], [x, a2, b2], [x, a3, b3]]
  {
    var r := PrependAll(x, [[a1, b1], [a2, b2], [a3, b3]]);
    assert r[0] == [x, a1, b1] && r[1] == [x, a2, b2] && r[2] == [x, a3, b3];
  }

  /** The tuples of one list of three values. */
  lemma TuplesOfThree<V>(x: V, y: V, z: V)
    ensures Tuples([[x, y, z]]) == [[x], [y], [z]]
  {
    var noLists: seq<seq<V>> := [];
    assert [[x, y, z]][1..] == noLists;
    assert Tuples(noLists) == [[]];
    ExpandThree(x, y, z, [[]]);
    PrependToEmpty(x);
    PrependToEmpty(y);
    PrependToEmpty(z);
  }

  /** The tuples of a one-value list followed by a three-value list. */
  lemma TuplesOfOneThree<V>(w: V, x: V, y: V, z: V)
    ensures Tuples([[w], [x, y, z]]) == [[w, x], [w, y], [w, z]]
  {
    assert [[w], [x, y, z]][1..] == [[x, y, z]];
    TuplesOfThree(x, y, z);
    ExpandOne(w, [[x], [y], [z]]);
    PrependToSingles(w, x, y, z);
  }

  /** The permutations of [1, 2], ["4"] and [6, 7, 8], in the order of `AllPermutations`. */
  lemma AllPermutationsExample()
    ensures Tuples([[Num(1), Num(2)], [Str("4")], [Num(6), Num(7), Num(8)]]) ==
      [[Num(1), Str("4"), Num(6)], [Num(1), Str("4"), Num(7)], [Num(1), Str("4"), Num(8)],
       [Num(2), Str("4"), Num(6)], [Num(2), Str("4"), Num(7)], [Num(2), Str("4"), Num(8)]]
  {
    var vals := [[Num(1), Num(2)], [Str("4")], [Num(6), Num(7), Num(8)]];
    var t2 := [[Str("4"), Num(6)], [Str("4"), Num(7)], [Str("4"), Num(8)]];
    assert vals[1..] == [[Str("4")], [Num(6), Num(7), Num(8)]];
    TuplesOfOneThree(Str("4"), Num(6), Num(7), Num(8));
    ExpandTwo(Num(1), Num(2), t2);
    PrependToPairs(Num(1), Str("4"), Num(6), Str("4"), Num(7), Str("4"), Num(8));
    PrependToPairs(Num(2), Str("4"), Num(6), Str("4"), Num(7), Str("4"), Num(8));
  }

  // ------------------------------------------------------ random single param change

  /**
   * The state of `RandomSingleParamChange` between yields: how many values
   * each generator's current iterator has given (`pos`), the index vector
   * `iterIndices` (`idx`), the values `vals`, the set of seen index-vector
   * hashes, and how many random draws have been taken.
   */
  datatype RState<V> = RState(pos: seq<nat>, idx: seq<int>, vals: seq<V>, seen: set<int>, calls: nat)

  /** One iterator, one index and one value per generator. */
  predicate Shape<V>(gens: seq<Gen<V>>, st: RState<V>)
  {
    |st.pos| == |gens| && |st.idx| == |gens| && |st.vals| == |gens|
  }

  /** Every iterator has given at least one and at most all of its values, and `vals` holds the last of each. */
  ghost predicate RValid<V>(gens: seq<Gen<V>>, st: RState<V>)
  {
    Shape(gens, st) &&
    forall i :: 0 <= i < |gens| ==> 1 <= st.pos[i] <= |gens[i].values| && st.vals[i] == gens[i].values[st.pos[i] - 1]
  }

  /** Validity looks at the positions and values alone. */
  lemma ValidIgnoresSeen<V>(gens: seq<Gen<V>>, st: RState<V>, seen: set<int>, calls: nat)
    requires RValid(gens, st)
    ensures RValid(gens, st.(seen := seen, calls := calls))
  {
  }

  /** The index vector names the position of each current value. */
  predicate Exact<V>(st: RState<V>)
  {
    |st.idx| == |st.pos| && forall i :: 0 <= i < |st.pos| ==> st.idx[i] == st.pos[i] as int - 1
  }

  /** The three arrays of the random pass are different objects. */
  predicate Apart<V>(pos: array<nat>, idx: array<int>, vals: array<V>)
  {
    pos as object != idx as object && pos as object != vals as object && idx as object != vals as object
  }

  /**
   * `iterNext(index)`: an exhausted iterator is replaced and its index set to
   * 0; otherwise the index is incremented; then the iterator's next value
   * goes to `vals[index]`.
   */
  function IterNextSpec<V>(gens: seq<Gen<V>>, st: RState<V>, index: nat): (r: RState<V>)
    requires index < |gens| && |gens[index].values| > 0 && Shape(gens, st)
    ensures Shape(gens, r) && r.seen == st.seen && r.calls == st.calls
  {
    var vs := gens[index].values;
    if st.pos[index] >= |vs| then
      st.(pos := st.pos[index := 1], idx := st.idx[index := 0], vals := st.vals[index := vs[0]])
    else
      st.(pos := st.pos[index := st.pos[index] + 1], idx := st.idx[index := st.idx[index] + 1], vals := st.vals[index := vs[st.pos[index]]])
  }

  /** `iterNext` keeps the state valid. */
  lemma IterNextValid<V>(gens: seq<Gen<V>>, st: RState<V>, index: nat)
    requires index < |gens| && |gens[index].values| > 0 && RValid(gens, st)
    ensures RValid(gens, IterNextSpec(gens, st, index))
  {
  }

  /** `iterNext` keeps the index vector naming the positions of the values. */
  lemma IterNextExact<V>(gens: seq<Gen<V>>, st: RState<V>, index: nat)
    requires index < |gens| && |gens[index].values| > 0 && Shape(gens, st) && Exact(st)
    ensures Exact(IterNextSpec(gens, st, index))
  {
  }

  /** What adding a new hash leaves in the seen set: the set is cleared once it reaches hashSetMaxBeforeReset. */
  function AddSeen(seen: set<int>, h: int, hashSetMaxBeforeReset: int): (r: set<int>)
    ensures |seen + {h}| < hashSetMaxBeforeReset ==> r == seen + {h}
    ensures |seen + {h}| >= hashSetMaxBeforeReset ==> r == {}
  {
    if |seen + {h}| >= hashSetMaxBeforeReset then {} else seen + {h}
  }

  /** Adding a hash not yet seen grows the set by one. */
  lemma AddOne(seen: set<int>, h: int)
    requires h !in seen
    ensures |seen + {h}| == |seen| + 1
  {
    assert seen * {h} == {};
  }

  /** Below the bound, a new hash is added and the set grows by one. */
  lemma SeenGrows(seen: set<int>, h: int, hashSetMaxBeforeReset: int)
    requires h !in seen && |seen| + 2 <= hashSetMaxBeforeReset
    ensures AddSeen(seen, h, hashSetMaxBeforeReset) == seen + {h}
    ensures |AddSeen(seen, h, hashSetMaxBeforeReset)| == |seen| + 1
  {
    AddOne(seen, h);
  }

  /**
   * The inner `for` loop: up to `tries` times, advance the slot the random
   * source draws and stop at the first index vector whose hash is new.
   * None when every try repeated a seen hash, which ends the sequence.
   * `hash` is `contentHashCode` on the index vector (`JavaInts.ArrayHash`).
   */
  function Retry<V>(gens: seq<Gen<V>>, source: nat -> int, hash: seq<int> -> int, st: RState<V>, tries: int, hashSetMaxBeforeReset: int)
    : (r: Option<RState<V>>)
    requires |gens| > 0 && !AnyEmpty(gens) && Shape(gens, st)
    ensures r.Some? ==> Shape(gens, r.value)
    decreases if tries < 0 then 0 else tries
  {
    if tries <= 0 then None
    else
      var index := source(st.calls) % |gens|;
      assert gens[index].values != [];
      var next := IterNextSpec(gens, st.(calls := st.calls + 1), index);
      var h := hash(next.idx);
      if h !in next.seen then Some(next.(seen := AddSeen(next.seen, h, hashSetMaxBeforeReset)))
      else Retry(gens, source, hash, next, tries - 1, hashSetMaxBeforeReset)
  }

  /** One try of `Retry`, unfolded. */
  lemma RetryUnfold<V>(gens: seq<Gen<V>>, source: nat -> int, hash: seq<int> -> int, st: RState<V>, tries: int, hashSetMaxBeforeReset: int)
    requires |gens| > 0 && !AnyEmpty(gens) && Shape(gens, st) && tries > 0
    ensures var index := source(st.calls) % |gens|;
      var next := IterNextSpec(gens, st.(calls := st.calls + 1), index);
      var h := hash(next.idx);
      Retry(gens, source, hash, st, tries, hashSetMaxBeforeReset) ==
        if h !in st.seen then Some(next.(seen := AddSeen(st.seen, h, hashSetMaxBeforeReset)))
        else Retry(gens, source, hash, next, tries - 1, hashSetMaxBeforeReset)
  {
  }

  /**
   * A try that succeeds has drawn at least once, found an index vector whose
   * hash was not seen, and added that hash to the seen set (clearing it when
   * full).
   */
  lemma {:induction false} RetrySome<V>(gens: seq<Gen<V>>, source: nat -> int, hash: seq<int> -> int, st: RState<V>, tries: int, hashSetMaxBeforeReset: int)
    requires |gens| > 0 && !AnyEmpty(gens) && Shape(gens, st)
    ensures var r := Retry(gens, source, hash, st, tries, hashSetMaxBeforeReset);
      r.Some? ==>
        r.value.calls > st.calls && hash(r.value.idx) !in st.seen &&
        r.value.seen == AddSeen(st.seen, hash(r.value.idx), hashSetMaxBeforeReset)
    decreases if tries < 0 then 0 else tries
  {
    if tries > 0 {
      RetryUnfold(gens, source, hash, st, tries, hashSetMaxBeforeReset);
      var next := IterNextSpec(gens, st.(calls := st.calls + 1), source(st.calls) % |gens|);
      assert next.seen == st.seen && next.calls == st.calls + 1;
      if hash(next.idx) in st.seen {
        RetrySome(gens, source, hash, next, tries - 1, hashSetMaxBeforeReset);
      }
    }
  }

  /** A try that succeeds from a valid state leaves a valid one. */
  lemma {:induction false} RetryValid<V>(gens: seq<Gen<V>>, source: nat -> int, hash: seq<int> -> int, st: RState<V>, tries: int, hashSetMaxBeforeReset: int)
    requires |gens| > 0 && !AnyEmpty(gens) && RValid(gens, st)
    ensures var r := Retry(gens, source, hash, st, tries, hashSetMaxBeforeReset); r.Some? ==> RValid(gens, r.value)
    decreases if tries < 0 then 0 else tries
  {
    if tries > 0 {
      RetryUnfold(gens, source, hash, st, tries, hashSetMaxBeforeReset);
      var index := source(st.calls) % |gens|;
      var drawn := st.(calls := st.calls + 1);
      ValidIgnoresSeen(gens, st, st.seen, st.calls + 1);
      IterNextValid(gens, drawn, index);
      var next := IterNextSpec(gens, drawn, index);
      if hash(next.idx) in st.seen {
        RetryValid(gens, source, hash, next, tries - 1, hashSetMaxBeforeReset);
      } else {
        ValidIgnoresSeen(gens, next, AddSeen(st.seen, hash(next.idx), hashSetMaxBeforeReset), next.calls);
      }
    }
  }

  /** A try that succeeds from a state whose index vector names its values' positions leaves one that does too. */
  lemma {:induction false} RetryExact<V>(gens: seq<Gen<V>>, source: nat -> int, hash: seq<int> -> int, st: RState<V>, tries: int, hashSetMaxBeforeReset: int)
    requires |gens| > 0 && !AnyEmpty(gens) && Shape(gens, st) && Exact(st)
    ensures var r := Retry(gens, source, hash, st, tries, hashSetMaxBeforeReset); r.Some? ==> Exact(r.value)
    decreases if tries < 0 then 0 else tries
  {
    if tries > 0 {
      RetryUnfold(gens, source, hash, st, tries, hashSetMaxBeforeReset);
      var index := source(st.calls) % |gens|;
      var drawn := st.(calls := st.calls + 1);
      assert Exact(drawn);
      IterNextExact(gens, drawn, index);
      var next := IterNextSpec(gens, drawn, index);
      if hash(next.idx) in st.seen {
        RetryExact(gens, source, hash, next, tries - 1, hashSetMaxBeforeReset);
      } else {
        assert Exact(next.(seen := AddSeen(st.seen, hash(next.idx), hashSetMaxBeforeReset)));
      }
    }
  }

  /**
   * The try the main loop makes from a state, as a function of the state:
   * `Retry` where it applies, `None` elsewhere.
   */
  function Stepper<V>(gens: seq<Gen<V>>, source: nat -> int, hash: seq<int> -> int, maxDupe: int, hashSetMaxBeforeReset: int)
    : RState<V> -> Option<RState<V>>
  {
    st => if |gens| > 0 && !AnyEmpty(gens) && Shape(gens, st) then Retry(gens, source, hash, st, maxDupe, hashSetMaxBeforeReset) else None
  }

  /** Where the loop's proof asks what the try from a state is. */
  ghost predicate Tried<V>(st: RState<V>)
  {
    true
  }

  /** `Stepper` is the main loop's try wherever `Tried` asks. */
  lemma StepperIsRetry<V>(gens: seq<Gen<V>>, source: nat -> int, hash: seq<int> -> int, maxDupe: int, hashSetMaxBeforeReset: int)
    ensures forall st {:trigger Tried(st)} :: Tried(st) && |gens| > 0 && !AnyEmpty(gens) && Shape(gens, st) ==>
      Stepper(gens, source, hash, maxDupe, hashSetMaxBeforeReset)(st) == Retry(gens, source, hash, st, maxDupe, hashSetMaxBeforeReset)
  {
  }

  /**
   * The states at the yields a consumer taking at most `limit` tuples sees,
   * from state st on, each try being `step`.  With no generators, the first
   * draw is `nextInt(0)`, which throws.
   */
  function Run<V>(gens: seq<Gen<V>>, step: RState<V> -> Option<RState<V>>, st: RState<V>, limit: nat, maxDupe: int)
    : (r: Result<seq<RState<V>>, string>)
    ensures r.Err? ==> limit > 1 && |gens| == 0 && maxDupe > 0
    ensures r.Ok? ==> |r.value| <= limit && (limit > 0 ==> r.value != [] && r.value[0] == st)
    decreases limit
  {
    if limit == 0 then Ok([])
    else if limit == 1 then Ok([st])
    else if |gens| == 0 then (if maxDupe <= 0 then Ok([st]) else Err("bound must be positive"))
    else
      match step(st)
      case None => Ok([st])
      case Some(next) =>
        var rest := Run(gens, step, next, limit - 1, maxDupe);
        if rest.Err? then rest else Ok([st] + rest.value)
  }

  /** The run of the main loop from state st. */
  function RunFrom<V>(gens: seq<Gen<V>>, source: nat -> int, hash: seq<int> -> int, st: RState<V>, limit: nat, maxDupe: int, hashSetMaxBeforeReset: int)
    : Result<seq<RState<V>>, string>
  {
    Run(gens, Stepper(gens, source, hash, maxDupe, hashSetMaxBeforeReset), st, limit, maxDupe)
  }

  /** The first value of every generator. */
  function Firsts<V>(gens: seq<Gen<V>>): (t: seq<V>)
    requires !AnyEmpty(gens)
    ensures |t| == |gens| && forall i :: 0 <= i < |gens| ==> t[i] == gens[i].values[0]
  {
    seq(|gens|, i requires 0 <= i < |gens| => gens[i].values[0])
  }

  function Constant(n: nat, x: nat): (r: seq<nat>)
    ensures |r| == n && forall i :: 0 <= i < n ==> r[i] == x
  {
    seq(n, _ => x)
  }

  /**
   * The state after `gens.indices.map(::iterNext)` as written: each fresh
   * iterator has a next value, so its index is incremented from 0 to 1
   * although its value is at position 0; only the all-zero vector is seen.
   */
  function StartAsWritten<V>(gens: seq<Gen<V>>): (st: RState<V>)
    requires !AnyEmpty(gens)
    ensures RValid(gens, st) && |st.seen| == 1
  {
    RState(Constant(|gens|, 1), Constant(|gens|, 1), Firsts(gens), {JavaInts.ArrayHash(Constant(|gens|, 0))}, 0)
  }

  /** The intended start: the first values stand at index 0, and their all-zero index vector is the one seen. */
  function StartCorrected<V>(gens: seq<Gen<V>>): (st: RState<V>)
    requires !AnyEmpty(gens)
    ensures RValid(gens, st) && Exact(st) && JavaInts.ArrayHash(st.idx) in st.seen && |st.seen| == 1
  {
    RState(Constant(|gens|, 1), Constant(|gens|, 0), Firsts(gens), {JavaInts.ArrayHash(Constant(|gens|, 0))}, 0)
  }

  function ValsOf<V>(states: seq<RState<V>>): (r: seq<seq<V>>)
    ensures |r| == |states| && forall k :: 0 <= k < |states| ==> r[k] == states[k].vals
  {
    seq(|states|, k requires 0 <= k < |states| => states[k].vals)
  }

  function ValsResult<V>(run: Result<seq<RState<V>>, string>): (r: Result<seq<seq<V>>, string>)
    ensures r.Err? <==> run.Err?
    ensures r.Ok? ==> r.value == ValsOf(run.value)
  {
    if run.Err? then Err(run.error) else Ok(ValsOf(run.value))
  }

  /** The states `RandomSingleParamChange` yields at; an empty generator throws at its first `next()`. */
  function RandomRun<V>(gens: seq<Gen<V>>, source: nat -> int, corrected: bool, limit: nat, maxDupe: int, hashSetMaxBeforeReset: int)
    : Result<seq<RState<V>>, string>
  {
    if limit == 0 then Ok([])
    else if AnyEmpty(gens) then Err("NoSuchElementException")
    else
      var start := if corrected then StartCorrected(gens) else StartAsWritten(gens);
      RunFrom(gens, source, JavaInts.ArrayHash, start, limit, maxDupe, hashSetMaxBeforeReset)
  }

  /** The tuples `RandomSingleParamChange` yields. */
  function RandomPass<V>(gens: seq<Gen<V>>, source: nat -> int, corrected: bool, limit: nat, maxDupe: int, hashSetMaxBeforeReset: int)
    : Result<seq<seq<V>>, string>
  {
    ValsResult(RandomRun(gens, source, corrected, limit, maxDupe, hashSetMaxBeforeReset))
  }

  /** `iterNext(index)` on the three arrays; st is the state they hold. */
  method IterNext<V>(gens: seq<Gen<V>>, pos: array<nat>, idx: array<int>, vals: array<V>, index: nat, ghost st: RState<V>)
    requires index < |gens| && gens[index].values != [] && Apart(pos, idx, vals)
    requires Shape(gens, st) && st.pos == pos[..] && st.idx == idx[..] && st.vals == vals[..]
    modifies pos, idx, vals
    ensures var r := IterNextSpec(gens, st, index); pos[..] == r.pos && idx[..] == r.idx && vals[..] == r.vals
  {
    if pos[index] >= |gens[index].values| {
      pos[index] := 1;
      idx[index] := 0;
    } else {
      pos[index] := pos[index] + 1;
      idx[index] := idx[index] + 1;
    }
    vals[index] := gens[index].values[pos[index] - 1];
  }

  /**
   * The arrays before the main loop: each iterator has given its first
   * value; `iterNext` increments each index, the corrected start leaves
   * them at 0.
   */
  method RandomStart<V(0)>(gens: seq<Gen<V>>, corrected: bool) returns (ok: bool, pos: array<nat>, idx: array<int>, vals: array<V>)
    ensures ok <==> !AnyEmpty(gens)
    ensures fresh(pos) && fresh(idx) && fresh(vals) && Apart(pos, idx, vals)
    ensures pos.Length == |gens| && idx.Length == |gens| && vals.Length == |gens|
    ensures ok ==> var st := if corrected then StartCorrected(gens) else StartAsWritten(gens);
      pos[..] == st.pos && idx[..] == st.idx && vals[..] == st.vals
  {
    pos := new nat[|gens|](_ => 0);
    idx := new int[|gens|](_ => 0);
    vals := new V[|gens|];
    var first := if corrected then 0 else 1;
    for i := 0 to |gens|
      invariant forall j :: 0 <= j < i ==> gens[j].values != [] && pos[j] == 1 && idx[j] == first && vals[j] == gens[j].values[0]
      invariant forall j :: i <= j < |gens| ==> pos[j] == 0 && idx[j] == 0
    {
      if gens[i].values == [] {
        return false, pos, idx, vals;
      }
      if corrected {
        pos[i] := 1;
        vals[i] := gens[i].values[0];
      } else {
        IterNext(gens, pos, idx, vals, i, RState(pos[..], idx[..], vals[..], {}, 0));
      }
    }
    ok := true;
    ghost var st := if corrected then StartCorrected(gens) else StartAsWritten(gens);
    assert pos[..] == st.pos;
    assert idx[..] == st.idx;
    assert vals[..] == st.vals;
  }

  /** One try of the inner loop: draws a generator index, steps its iterator and hashes the new index vector. */
  method RetryDraw<V>(gens: seq<Gen<V>>, rand: JavaRandom.Rand, hash: seq<int> -> int, pos: array<nat>, idx: array<int>, vals: array<V>,
                      seen: set<int>, ghost cur: RState<V>) returns (h: int, ghost next: RState<V>)
    requires |gens| > 0 && !AnyEmpty(gens) && Apart(pos, idx, vals)
    requires Shape(gens, cur) && cur == RState(pos[..], idx[..], vals[..], seen, rand.calls)
    modifies rand, pos, idx, vals
    ensures next == IterNextSpec(gens, cur.(calls := cur.calls + 1), rand.source(cur.calls) % |gens|)
    ensures next == RState(pos[..], idx[..], vals[..], seen, rand.calls) && h == hash(next.idx)
  {
    var index := rand.NextInt(|gens|);
    assert index == rand.source(cur.calls) % |gens|;
    ghost var drawn := cur.(calls := cur.calls + 1);
    IterNext(gens, pos, idx, vals, index, drawn);
    next := IterNextSpec(gens, drawn, index);
    h := hash(idx[..]);
  }

  /** The inner `for` loop of the main loop, against `Retry`. */
  method RetryLoop<V>(gens: seq<Gen<V>>, rand: JavaRandom.Rand, hash: seq<int> -> int, pos: array<nat>, idx: array<int>, vals: array<V>, seen: set<int>,
                      maxDupe: int, hashSetMaxBeforeReset: int) returns (found: bool, seen': set<int>)
    requires |gens| > 0 && !AnyEmpty(gens) && pos.Length == |gens| && idx.Length == |gens| && vals.Length == |gens|
    requires Apart(pos, idx, vals)
    modifies rand, pos, idx, vals
    ensures var r := Retry(gens, rand.source, hash, RState(old(pos[..]), old(idx[..]), old(vals[..]), seen, old(rand.calls)), maxDupe, hashSetMaxBeforeReset);
      (found <==> r.Some?) && (found ==> r.value == RState(pos[..], idx[..], vals[..], seen', rand.calls))
  {
    ghost var start := RState(pos[..], idx[..], vals[..], seen, rand.calls);
    ghost var target := Retry(gens, rand.source, hash, start, maxDupe, hashSetMaxBeforeReset);
    ghost var cur := start;
    // the tries left, counting down from maxDupe
    var left := maxDupe;
    while left > 0
      invariant cur == RState(pos[..], idx[..], vals[..], seen, rand.calls)
      invariant Shape(gens, cur)
      invariant target == Retry(gens, rand.source, hash, cur, left, hashSetMaxBeforeReset)
    {
      RetryUnfold(gens, rand.source, hash, cur, left, hashSetMaxBeforeReset);
      var h;
      ghost var next;
      h, next := RetryDraw(gens, rand, hash, pos, idx, vals, seen, cur);
      if h !in seen {
        return true, AddSeen(seen, h, hashSetMaxBeforeReset);
      }
      assert target == Retry(gens, rand.source, hash, next, left - 1, hashSetMaxBeforeReset);
      cur := next;
      left := left - 1;
    }
    return false, seen;
  }

  /**
   * One yield of the main loop: with no generator, `nextInt(0)` throws as
   * soon as there is a try to make; otherwise the inner loop runs, and the
   * rest of the run is the one from where it leaves the arrays.
   */
  method RandomStep<V(!new)>(gens: seq<Gen<V>>, rand: JavaRandom.Rand, hash: seq<int> -> int, ghost step: RState<V> -> Option<RState<V>>,
                       pos: array<nat>, idx: array<int>, vals: array<V>, seen: set<int>, ghost left: nat, maxDupe: int, hashSetMaxBeforeReset: int,
                       ghost cur: RState<V>) returns (failed: bool, found: bool, seen': set<int>)
    requires !AnyEmpty(gens) && left >= 2 && Apart(pos, idx, vals)
    requires forall st {:trigger Tried(st)} :: Tried(st) && |gens| > 0 && !AnyEmpty(gens) && Shape(gens, st) ==>
      step(st) == Retry(gens, rand.source, hash, st, maxDupe, hashSetMaxBeforeReset)
    requires Shape(gens, cur) && cur == RState(pos[..], idx[..], vals[..], seen, rand.calls)
    modifies rand, pos, idx, vals
    ensures Shape(gens, RState(pos[..], idx[..], vals[..], seen', rand.calls))
    ensures var run := Run(gens, step, cur, left, maxDupe);
      if failed then run.Err?
      else if found then run == Then([cur], Run(gens, step, RState(pos[..], idx[..], vals[..], seen', rand.calls), left - 1, maxDupe))
      else run == Ok([cur])
  {
    if |gens| == 0 {
      seen' := seen;
      found := false;
      failed := maxDupe > 0;
      if !failed {
        RunEnd(gens, step, cur, left, maxDupe);
      }
      return;
    }
    failed := false;
    assert Tried(cur);
    found, seen' := RetryLoop(gens, rand, hash, pos, idx, vals, seen, maxDupe, hashSetMaxBeforeReset);
    if found {
      RunStep(gens, step, cur, left, maxDupe);
    } else {
      RunEnd(gens, step, cur, left, maxDupe);
    }
  }

  /** Prefix `done` to a run, keeping an error. */
  function Then<V>(done: seq<RState<V>>, r: Result<seq<RState<V>>, string>): Result<seq<RState<V>>, string>
  {
    if r.Err? then r else Ok(done + r.value)
  }

  lemma ThenThen<V>(done: seq<RState<V>>, cur: RState<V>, r: Result<seq<RState<V>>, string>)
    ensures Then(done, Then([cur], r)) == Then(done + [cur], r)
  {
    if r.Ok? {
      assert done + ([cur] + r.value) == (done + [cur]) + r.value;
    }
  }

  /** The main loop from the first yield on. */
  method RandomLoop<V(!new)>(gens: seq<Gen<V>>, rand: JavaRandom.Rand, hash: seq<int> -> int, ghost step: RState<V> -> Option<RState<V>>, pos: array<nat>, idx: array<int>, vals: array<V>, seen0: set<int>,
                       limit: nat, maxDupe: int, hashSetMaxBeforeReset: int) returns (r: Result<seq<seq<V>>, string>)
    requires limit > 0 && !AnyEmpty(gens) && pos.Length == |gens| && idx.Length == |gens| && vals.Length == |gens|
    requires Apart(pos, idx, vals)
    requires forall st {:trigger Tried(st)} :: Tried(st) && |gens| > 0 && !AnyEmpty(gens) && Shape(gens, st) ==>
      step(st) == Retry(gens, rand.source, hash, st, maxDupe, hashSetMaxBeforeReset)
    modifies rand, pos, idx, vals
    ensures SameOutcome(r, ValsResult(Run(gens, step, RState(old(pos[..]), old(idx[..]), old(vals[..]), seen0, old(rand.calls)), limit, maxDupe)))
  {
    ghost var start := RState(pos[..], idx[..], vals[..], seen0, rand.calls);
    ghost var run := Run(gens, step, start, limit, maxDupe);
    // the states yielded before the current one, the current one, and how many more the consumer takes
    ghost var done: seq<RState<V>> := [];
    ghost var cur := start;
    ghost var left: nat := limit;
    var seen := seen0;
    var out := [vals[..]];
    if run.Ok? {
      assert done + run.value == run.value;
    }
    while |out| < limit
      invariant |out| == |done| + 1 <= limit && left == limit - |done|
      invariant cur == RState(pos[..], idx[..], vals[..], seen, rand.calls)
      invariant Shape(gens, cur)
      invariant out == ValsOf(done + [cur])
      invariant run == Then(done, Run(gens, step, cur, left, maxDupe))
      decreases limit - |out|
    {
      var failed, found, seen' := RandomStep(gens, rand, hash, step, pos, idx, vals, seen, left, maxDupe, hashSetMaxBeforeReset, cur);
      if failed {
        return Err("bound must be positive");
      }
      if !found {
        break;
      }
      seen := seen';
      ghost var next := RState(pos[..], idx[..], vals[..], seen, rand.calls);
      ghost var rest := Run(gens, step, next, left - 1, maxDupe);
      ThenThen(done, cur, rest);
      done := done + [cur];
      cur := next;
      left := left - 1;
      out := out + [vals[..]];
      assert out == ValsOf(done + [cur]);
    }
    if |out| == limit {
      RunEnd(gens, step, cur, left, maxDupe);
    }
    r := Ok(out);
  }

  /**
   * `RandomSingleParamChange` as written, with the random source its seed
   * determines: the tuples match `RandomPass` with the as-written start.
   */
  method RandomSingleParamChange<V(0,!new)>(gens: seq<Gen<V>>, source: nat -> int, limit: nat, hashSetMaxBeforeReset: int, maxDupeGenBeforeQuit: int)
    returns (r: Result<seq<seq<V>>, string>)
    ensures SameOutcome(r, RandomPass(gens, source, false, limit, maxDupeGenBeforeQuit, hashSetMaxBeforeReset))
  {
    r := RandomSingleParamChangeFrom(gens, source, false, limit, hashSetMaxBeforeReset, maxDupeGenBeforeQuit);
  }

  /** `RandomSingleParamChange` with the index vector starting at the first values' indices. */
  method RandomSingleParamChangeCorrected<V(0,!new)>(gens: seq<Gen<V>>, source: nat -> int, limit: nat, hashSetMaxBeforeReset: int, maxDupeGenBeforeQuit: int)
    returns (r: Result<seq<seq<V>>, string>)
    ensures SameOutcome(r, RandomPass(gens, source, true, limit, maxDupeGenBeforeQuit, hashSetMaxBeforeReset))
  {
    r := RandomSingleParamChangeFrom(gens, source, true, limit, hashSetMaxBeforeReset, maxDupeGenBeforeQuit);
  }

  method RandomSingleParamChangeFrom<V(0,!new)>(gens: seq<Gen<V>>, source: nat -> int, corrected: bool, limit: nat,
                                           hashSetMaxBeforeReset: int, maxDupeGenBeforeQuit: int)
    returns (r: Result<seq<seq<V>>, string>)
    ensures SameOutcome(r, RandomPass(gens, source, corrected, limit, maxDupeGenBeforeQuit, hashSetMaxBeforeReset))
  {
    if limit == 0 {
      return Ok([]);
    }
    var rand := new JavaRandom.Rand(source);
    var ok, pos, idx, vals := RandomStart(gens, corrected);
    if !ok {
      return Err("NoSuchElementException");
    }
    var seen := {JavaInts.ArrayHash(Constant(|gens|, 0))};
    ghost var step := Stepper(gens, source, JavaInts.ArrayHash, maxDupeGenBeforeQuit, hashSetMaxBeforeReset);
    StepperIsRetry(gens, source, JavaInts.ArrayHash, maxDupeGenBeforeQuit, hashSetMaxBeforeReset);
    r := RandomLoop(gens, rand, JavaInts.ArrayHash, step, pos, idx, vals, seen, limit, maxDupeGenBeforeQuit, hashSetMaxBeforeReset);
  }

  // ------------------------------------------------------ what the random runs promise

  /** One step of a run: a successful try puts the state in front of the run from the next one. */
  lemma RunStep<V>(gens: seq<Gen<V>>, step: RState<V> -> Option<RState<V>>, st: RState<V>, limit: nat, maxDupe: int)
    requires limit >= 2 && |gens| > 0 && step(st).Some?
    ensures Run(gens, step, st, limit, maxDupe) == Then([st], Run(gens, step, step(st).value, limit - 1, maxDupe))
  {
  }

  /** A run that takes one value, has no generator to draw from, or whose try fails holds its first state alone. */
  lemma RunEnd<V>(gens: seq<Gen<V>>, step: RState<V> -> Option<RState<V>>, st: RState<V>, limit: nat, maxDupe: int)
    requires limit >= 1
    requires limit == 1 || (|gens| == 0 && maxDupe <= 0) || (|gens| > 0 && step(st).None?)
    ensures Run(gens, step, st, limit, maxDupe) == Ok([st])
  {
  }

  /** A run holds at most its first state, or that state in front of the run from a successful try. */
  lemma RunCases<V>(gens: seq<Gen<V>>, step: RState<V> -> Option<RState<V>>, st: RState<V>, limit: nat, maxDupe: int)
    ensures var r := Run(gens, step, st, limit, maxDupe);
      r.Ok? && |r.value| > 1 ==>
        limit >= 2 && |gens| > 0 && step(st).Some? &&
        var rest := Run(gens, step, step(st).value, limit - 1, maxDupe);
        rest.Ok? && rest.value != [] && r.value == [st] + rest.value
  {
  }

  /** Every state of a run from a valid state is valid. */
  lemma {:induction false} RunValid<V>(gens: seq<Gen<V>>, source: nat -> int, hash: seq<int> -> int, step: RState<V> -> Option<RState<V>>,
                                       st: RState<V>, limit: nat, maxDupe: int, hashSetMaxBeforeReset: int)
    requires forall s {:trigger Tried(s)} :: Tried(s) && |gens| > 0 && !AnyEmpty(gens) && Shape(gens, s) ==>
      step(s) == Retry(gens, source, hash, s, maxDupe, hashSetMaxBeforeReset)
    requires !AnyEmpty(gens) && RValid(gens, st)
    ensures var r := Run(gens, step, st, limit, maxDupe);
      r.Ok? ==> forall k :: 0 <= k < |r.value| ==> RValid(gens, r.value[k])
    decreases limit
  {
    RunCases(gens, step, st, limit, maxDupe);
    var r := Run(gens, step, st, limit, maxDupe);
    if r.Ok? && |r.value| > 1 {
      assert Tried(st);
      RetryValid(gens, source, hash, st, maxDupe, hashSetMaxBeforeReset);
      RunValid(gens, source, hash, step, step(st).value, limit - 1, maxDupe, hashSetMaxBeforeReset);
    }
  }

  /** Every state of a run from a state whose index vector names its values' positions does so too. */
  lemma {:induction false} RunExact<V>(gens: seq<Gen<V>>, source: nat -> int, hash: seq<int> -> int, step: RState<V> -> Option<RState<V>>,
                                       st: RState<V>, limit: nat, maxDupe: int, hashSetMaxBeforeReset: int)
    requires forall s {:trigger Tried(s)} :: Tried(s) && |gens| > 0 && !AnyEmpty(gens) && Shape(gens, s) ==>
      step(s) == Retry(gens, source, hash, s, maxDupe, hashSetMaxBeforeReset)
    requires !AnyEmpty(gens) && Shape(gens, st) && Exact(st)
    ensures var r := Run(gens, step, st, limit, maxDupe);
      r.Ok? ==> forall k :: 0 <= k < |r.value| ==> Exact(r.value[k])
    decreases limit
  {
    RunCases(gens, step, st, limit, maxDupe);
    var r := Run(gens, step, st, limit, maxDupe);
    if r.Ok? && |r.value| > 1 {
      assert Tried(st);
      RetryExact(gens, source, hash, st, maxDupe, hashSetMaxBeforeReset);
      RunExact(gens, source, hash, step, step(st).value, limit - 1, maxDupe, hashSetMaxBeforeReset);
    }
  }

  /** Putting a state whose hash is seen in front of states whose hashes are new and pairwise different. */
  lemma ConsFresh<V>(hash: seq<int> -> int, st: RState<V>, rest: seq<RState<V>>)
    requires hash(st.idx) in st.seen
    requires rest != [] && hash(rest[0].idx) !in st.seen && st.seen <= rest[0].seen
    requires forall k :: 0 < k < |rest| ==> hash(rest[k].idx) !in rest[0].seen
    requires forall j, k :: 0 <= j < k < |rest| ==> hash(rest[j].idx) != hash(rest[k].idx)
    ensures var r := [st] + rest;
      (forall k :: 0 < k < |r| ==> hash(r[k].idx) !in st.seen) &&
      (forall j, k :: 0 <= j < k < |r| ==> hash(r[j].idx) != hash(r[k].idx))
  {
    var r := [st] + rest;
    forall k | 0 < k < |r|
      ensures hash(r[k].idx) !in st.seen
    {
      assert r[k] == rest[k - 1];
    }
    forall j, k | 0 <= j < k < |r|
      ensures hash(r[j].idx) != hash(r[k].idx)
    {
      if j > 0 {
        assert r[j] == rest[j - 1] && r[k] == rest[k - 1];
      }
    }
  }

  /**
   * While the seen set is not cleared, every state after the first has an
   * index vector whose hash was not seen before, so the hashes of the index
   * vectors of a run are pairwise different.
   */
  lemma {:induction false} RunDistinct<V>(gens: seq<Gen<V>>, source: nat -> int, hash: seq<int> -> int, step: RState<V> -> Option<RState<V>>,
                                          st: RState<V>, limit: nat, maxDupe: int, hashSetMaxBeforeReset: int)
    requires forall s {:trigger Tried(s)} :: Tried(s) && |gens| > 0 && !AnyEmpty(gens) && Shape(gens, s) ==>
      step(s) == Retry(gens, source, hash, s, maxDupe, hashSetMaxBeforeReset)
    requires !AnyEmpty(gens) && Shape(gens, st)
    requires hash(st.idx) in st.seen && |st.seen| + limit <= hashSetMaxBeforeReset
    ensures var r := Run(gens, step, st, limit, maxDupe);
      r.Ok? ==>
        (forall k :: 0 < k < |r.value| ==> hash(r.value[k].idx) !in st.seen) &&
        (forall j, k :: 0 <= j < k < |r.value| ==> hash(r.value[j].idx) != hash(r.value[k].idx))
    decreases limit
  {
    RunCases(gens, step, st, limit, maxDupe);
    var r := Run(gens, step, st, limit, maxDupe);
    if r.Ok? && |r.value| > 1 {
      assert Tried(st);
      var next := step(st).value;
      RetrySome(gens, source, hash, st, maxDupe, hashSetMaxBeforeReset);
      SeenGrows(st.seen, hash(next.idx), hashSetMaxBeforeReset);
      RunDistinct(gens, source, hash, step, next, limit - 1, maxDupe, hashSetMaxBeforeReset);
      ConsFresh(hash, st, Run(gens, step, next, limit - 1, maxDupe).value);
    }
  }

  /** Each generator lists no value twice. */
  ghost predicate NoDuplicateValues<V>(gens: seq<Gen<V>>)
  {
    forall i, p, q :: 0 <= i < |gens| && 0 <= p < q < |gens[i].values| ==> gens[i].values[p] != gens[i].values[q]
  }

  /** Each value is the one the index vector names in its generator. */
  ghost predicate Indexed<V>(gens: seq<Gen<V>>, st: RState<V>)
  {
    Shape(gens, st) &&
    forall i :: 0 <= i < |gens| ==> 0 <= st.idx[i] < |gens[i].values| && st.vals[i] == gens[i].values[st.idx[i]]
  }

  /** A valid state whose index vector names its positions holds the values that vector names. */
  lemma ValidExactIndexed<V>(gens: seq<Gen<V>>, st: RState<V>)
    requires RValid(gens, st) && Exact(st)
    ensures Indexed(gens, st)
  {
    forall i | 0 <= i < |gens|
      ensures 0 <= st.idx[i] < |gens[i].values| && st.vals[i] == gens[i].values[st.idx[i]]
    {
      assert st.idx[i] == st.pos[i] - 1;
    }
  }

  /**
   * The corrected run: each tuple holds, for every generator, the value its
   * index vector names, and while the seen set is not cleared no index
   * vector comes back.
   */
  lemma RandomCorrectedIndexed<V>(gens: seq<Gen<V>>, source: nat -> int, limit: nat, maxDupe: int, hashSetMaxBeforeReset: int)
    requires hashSetMaxBeforeReset > limit
    ensures var run := RandomRun(gens, source, true, limit, maxDupe, hashSetMaxBeforeReset);
      run.Ok? ==>
        (forall k :: 0 <= k < |run.value| ==> Indexed(gens, run.value[k])) &&
        (forall j, k :: 0 <= j < k < |run.value| ==> run.value[j].idx != run.value[k].idx)
  {
    if limit > 0 && !AnyEmpty(gens) {
      var start := StartCorrected(gens);
      assert RandomRun(gens, source, true, limit, maxDupe, hashSetMaxBeforeReset)
          == RunFrom(gens, source, JavaInts.ArrayHash, start, limit, maxDupe, hashSetMaxBeforeReset);
      RunIndexed(gens, source, JavaInts.ArrayHash, start, limit, maxDupe, hashSetMaxBeforeReset);
    }
  }

  /** `RandomCorrectedIndexed` for any hash and any start that is valid, exact and has its own hash alone in the seen set. */
  lemma RunIndexed<V>(gens: seq<Gen<V>>, source: nat -> int, hash: seq<int> -> int, start: RState<V>, limit: nat, maxDupe: int,
                      hashSetMaxBeforeReset: int)
    requires !AnyEmpty(gens) && RValid(gens, start) && Exact(start)
    requires hash(start.idx) in start.seen && |start.seen| == 1 && hashSetMaxBeforeReset > limit
    ensures var run := RunFrom(gens, source, hash, start, limit, maxDupe, hashSetMaxBeforeReset);
      run.Ok? ==>
        (forall k :: 0 <= k < |run.value| ==> Indexed(gens, run.value[k])) &&
        (forall j, k :: 0 <= j < k < |run.value| ==> run.value[j].idx != run.value[k].idx)
  {
    var step := Stepper(gens, source, hash, maxDupe, hashSetMaxBeforeReset);
    StepperIsRetry(gens, source, hash, maxDupe, hashSetMaxBeforeReset);
    RunValid(gens, source, hash, step, start, limit, maxDupe, hashSetMaxBeforeReset);
    RunExact(gens, source, hash, step, start, limit, maxDupe, hashSetMaxBeforeReset);
    RunDistinct(gens, source, hash, step, start, limit, maxDupe, hashSetMaxBeforeReset);
    var run := Run(gens, step, start, limit, maxDupe);
    if run.Ok? {
      forall k | 0 <= k < |run.value|
        ensures Indexed(gens, run.value[k])
      {
        ValidExactIndexed(gens, run.value[k]);
      }
    }
  }

  /**
   * With generators that list no value twice, and a limit below the
   * seen-set size, the corrected `RandomSingleParamChange` never yields the
   * same tuple twice.
   */
  lemma RandomCorrectedNoRepeats<V>(gens: seq<Gen<V>>, source: nat -> int, limit: nat, maxDupe: int, hashSetMaxBeforeReset: int)
    requires NoDuplicateValues(gens) && hashSetMaxBeforeReset > limit
    ensures var r := RandomPass(gens, source, true, limit, maxDupe, hashSetMaxBeforeReset);
      r.Ok? ==> |r.value| <= limit && forall j, k :: 0 <= j < k < |r.value| ==> r.value[j] != r.value[k]
  {
    var run := RandomRun(gens, source, true, limit, maxDupe, hashSetMaxBeforeReset);
    RandomCorrectedIndexed(gens, source, limit, maxDupe, hashSetMaxBeforeReset);
    if run.Ok? {
      var out := ValsOf(run.value);
      forall j, k | 0 <= j < k < |out|
        ensures out[j] != out[k]
      {
        var a, b := run.value[j], run.value[k];
        assert Indexed(gens, a) && Indexed(gens, b);
        var i :| 0 <= i < |gens| && a.idx[i] != b.idx[i];
        var vs := gens[i].values;
        if a.idx[i] < b.idx[i] {
          assert vs[a.idx[i]] != vs[b.idx[i]];
        } else {
          assert vs[b.idx[i]] != vs[a.idx[i]];
        }
        assert out[j][i] != out[k][i];
      }
    }
  }

  // ------------------------------------------------------ one generator of two values

  /** The content hash of a one-element index vector. */
  lemma HashOfOne(x: int)
    requires 0 <= x <= 2
    ensures JavaInts.ArrayHash([x]) == 31 + x
  {
    assert [x][..0] == [];
  }

  /** `iterNext` on one generator [a, b]: from b back to a at index 0, from a on to b with the index incremented. */
  lemma IterNextOneGen<V>(gens: seq<Gen<V>>, a: V, b: V, st: RState<V>)
    requires |gens| == 1 && gens[0].values == [a, b] && Shape(gens, st) && (st.pos == [1] || st.pos == [2])
    ensures st.pos == [2] ==> IterNextSpec(gens, st, 0) == st.(pos := [1], idx := [0], vals := [a])
    ensures st.pos == [1] ==> IterNextSpec(gens, st, 0) == st.(pos := [2], idx := [st.idx[0] + 1], vals := [b])
  {
    assert st.idx[0 := 0] == [0] && st.vals[0 := a] == [a];
    assert st.idx[0 := st.idx[0] + 1] == [st.idx[0] + 1] && st.vals[0 := b] == [b];
  }

  /**
   * With one generator [a, b], once the hashes of the index vectors [0] and
   * [1] are seen and the iterator stands on either value with its index
   * naming it, every try repeats a seen index vector: the run ends.
   */
  lemma {:induction false} OneGenCycleEnds<V>(gens: seq<Gen<V>>, a: V, b: V, source: nat -> int, hash: seq<int> -> int, st: RState<V>, tries: int,
                                              hashSetMaxBeforeReset: int)
    requires |gens| == 1 && gens[0].values == [a, b] && Shape(gens, st)
    requires (st.pos == [1] && st.idx == [0]) || (st.pos == [2] && st.idx == [1])
    requires hash([0]) in st.seen && hash([1]) in st.seen
    ensures Retry(gens, source, hash, st, tries, hashSetMaxBeforeReset) == None
    decreases if tries < 0 then 0 else tries
  {
    if tries > 0 {
      RetryUnfold(gens, source, hash, st, tries, hashSetMaxBeforeReset);
      assert source(st.calls) % |gens| == 0;
      var next := IterNextSpec(gens, st.(calls := st.calls + 1), 0);
      IterNextOneGen(gens, a, b, st.(calls := st.calls + 1));
      OneGenCycleEnds(gens, a, b, source, hash, next, tries - 1, hashSetMaxBeforeReset);
    }
  }

  /** As written, the first try from [a] reaches b with the index vector [2], not seen yet. */
  lemma OneGenAsWrittenFirst<V>(gens: seq<Gen<V>>, a: V, b: V, source: nat -> int, hash: seq<int> -> int, maxDupe: int, hashSetMaxBeforeReset: int)
    requires |gens| == 1 && gens[0].values == [a, b]
    requires hash([0]) != hash([2]) && maxDupe >= 1 && hashSetMaxBeforeReset >= 4
    ensures !AnyEmpty(gens)
    ensures Retry(gens, source, hash, RState([1], [1], [a], {hash([0])}, 0), maxDupe, hashSetMaxBeforeReset)
         == Some(RState([2], [2], [b], {hash([0])} + {hash([2])}, 1))
  {
    assert gens[0].values != [];
    var s0 := RState([1], [1], [a], {hash([0])}, 0);
    IterNextOneGen(gens, a, b, s0.(calls := 1));
    AddOne({hash([0])}, hash([2]));
    assert source(0) % |gens| == 0;
    RetryUnfold(gens, source, hash, s0, maxDupe, hashSetMaxBeforeReset);
  }

  /** As written, the second try from b wraps to a with [0], seen, then reaches b again with [1], not seen yet. */
  lemma OneGenAsWrittenSecond<V>(gens: seq<Gen<V>>, a: V, b: V, source: nat -> int, hash: seq<int> -> int, maxDupe: int, hashSetMaxBeforeReset: int)
    requires |gens| == 1 && gens[0].values == [a, b]
    requires hash([0]) != hash([1]) && hash([0]) != hash([2]) && hash([1]) != hash([2])
    requires maxDupe >= 2 && hashSetMaxBeforeReset >= 4
    ensures !AnyEmpty(gens)
    ensures Retry(gens, source, hash, RState([2], [2], [b], {hash([0])} + {hash([2])}, 1), maxDupe, hashSetMaxBeforeReset)
         == Some(RState([2], [1], [b], {hash([0])} + {hash([2])} + {hash([1])}, 3))
  {
    assert gens[0].values != [];
    var seen := {hash([0])} + {hash([2])};
    var s1 := RState([2], [2], [b], seen, 1);
    var back := RState([1], [0], [a], seen, 2);
    IterNextOneGen(gens, a, b, s1.(calls := 2));
    IterNextOneGen(gens, a, b, back.(calls := 3));
    AddOne({hash([0])}, hash([2]));
    AddOne(seen, hash([1]));
    assert source(1) % |gens| == 0 && source(2) % |gens| == 0;
    RetryUnfold(gens, source, hash, s1, maxDupe, hashSetMaxBeforeReset);
    RetryUnfold(gens, source, hash, back, maxDupe - 1, hashSetMaxBeforeReset);
  }

  /**
   * The run of one generator [a, b] from the as-written start, for any hash
   * that tells [0], [1] and [2] apart: [a], [b], then [b] again.
   */
  lemma OneGenAsWrittenRun<V>(gens: seq<Gen<V>>, a: V, b: V, source: nat -> int, hash: seq<int> -> int, limit: nat, maxDupe: int,
                              hashSetMaxBeforeReset: int)
    requires |gens| == 1 && gens[0].values == [a, b]
    requires hash([0]) != hash([1]) && hash([0]) != hash([2]) && hash([1]) != hash([2])
    requires limit >= 3 && maxDupe >= 2 && hashSetMaxBeforeReset >= 4
    ensures !AnyEmpty(gens)
    ensures var r := RunFrom(gens, source, hash, RState([1], [1], [a], {hash([0])}, 0), limit, maxDupe, hashSetMaxBeforeReset);
      r.Ok? && ValsOf(r.value) == [[a], [b], [b]]
  {
    var h0, h1, h2 := hash([0]), hash([1]), hash([2]);
    var s0 := RState([1], [1], [a], {h0}, 0);
    var s1 := RState([2], [2], [b], {h0} + {h2}, 1);
    var s2 := RState([2], [1], [b], {h0} + {h2} + {h1}, 3);
    OneGenAsWrittenFirst(gens, a, b, source, hash, maxDupe, hashSetMaxBeforeReset);
    OneGenAsWrittenSecond(gens, a, b, source, hash, maxDupe, hashSetMaxBeforeReset);
    // from then on only [0] and [1] come back
    OneGenCycleEnds(gens, a, b, source, hash, s2, maxDupe, hashSetMaxBeforeReset);
    var step := Stepper(gens, source, hash, maxDupe, hashSetMaxBeforeReset);
    assert step(s0) == Some(s1) && step(s1) == Some(s2) && step(s2) == None;
    RunEnd(gens, step, s2, limit - 2, maxDupe);
    RunStep(gens, step, s1, limit - 1, maxDupe);
    RunStep(gens, step, s0, limit, maxDupe);
    assert [s0] + ([s1] + [s2]) == [s0, s1, s2];
  }

  /**
   * The run of one generator [a, b] from the corrected start, for any hash
   * that tells [0] and [1] apart: [a], [b], and nothing more.
   */
  lemma OneGenCorrectedRun<V>(gens: seq<Gen<V>>, a: V, b: V, source: nat -> int, hash: seq<int> -> int, limit: nat, maxDupe: int,
                              hashSetMaxBeforeReset: int)
    requires |gens| == 1 && gens[0].values == [a, b]
    requires hash([0]) != hash([1])
    requires limit >= 2 && maxDupe >= 1 && hashSetMaxBeforeReset >= 3
    ensures !AnyEmpty(gens)
    ensures var r := RunFrom(gens, source, hash, RState([1], [0], [a], {hash([0])}, 0), limit, maxDupe, hashSetMaxBeforeReset);
      r.Ok? && ValsOf(r.value) == [[a], [b]]
  {
    assert gens[0].values != [];
    var h0, h1 := hash([0]), hash([1]);
    var s0 := RState([1], [0], [a], {h0}, 0);
    // a -> b with index vector [1]: new
    IterNextOneGen(gens, a, b, s0.(calls := 1));
    AddOne({h0}, h1);
    var s1 := RState([2], [1], [b], {h0} + {h1}, 1);
    assert source(0) % |gens| == 0;
    RetryUnfold(gens, source, hash, s0, maxDupe, hashSetMaxBeforeReset);
    assert Retry(gens, source, hash, s0, maxDupe, hashSetMaxBeforeReset) == Some(s1);
    // from then on only [0] and [1] come back
    OneGenCycleEnds(gens, a, b, source, hash, s1, maxDupe, hashSetMaxBeforeReset);
    var step := Stepper(gens, source, hash, maxDupe, hashSetMaxBeforeReset);
    assert step(s0) == Some(s1) && step(s1) == None;
    RunEnd(gens, step, s1, limit - 1, maxDupe);
    RunStep(gens, step, s0, limit, maxDupe);
    assert [s0] + [s1] == [s0, s1];
  }

  /**
   * As written, one generator [a, b] yields [a], [b] and then [b] again:
   * the start counts a's index as 1, so the index vectors [2] of the first
   * b and [1] of the second look different; then the run ends.
   */
  lemma RandomAsWrittenRepeats<V>(gens: seq<Gen<V>>, a: V, b: V, source: nat -> int, limit: nat, maxDupe: int, hashSetMaxBeforeReset: int)
    requires |gens| == 1 && gens[0].values == [a, b]
    requires limit >= 3 && maxDupe >= 2 && hashSetMaxBeforeReset >= 4
    ensures RandomPass(gens, source, false, limit, maxDupe, hashSetMaxBeforeReset) == Ok([[a], [b], [b]])
  {
    HashOfOne(0);
    HashOfOne(1);
    HashOfOne(2);
    OneGenAsWrittenRun(gens, a, b, source, JavaInts.ArrayHash, limit, maxDupe, hashSetMaxBeforeReset);
    assert Constant(1, 0) == [0] && Constant(1, 1) == [1] && Firsts(gens) == [a];
  }

  /** The corrected start yields [a] and [b] once each, and then the run ends. */
  lemma RandomCorrectedOnce<V>(gens: seq<Gen<V>>, a: V, b: V, source: nat -> int, limit: nat, maxDupe: int, hashSetMaxBeforeReset: int)
    requires |gens| == 1 && gens[0].values == [a, b]
    requires limit >= 2 && maxDupe >= 1 && hashSetMaxBeforeReset >= 3
    ensures RandomPass(gens, source, true, limit, maxDupe, hashSetMaxBeforeReset) == Ok([[a], [b]])
  {
    HashOfOne(0);
    HashOfOne(1);
    OneGenCorrectedRun(gens, a, b, source, JavaInts.ArrayHash, limit, maxDupe, hashSetMaxBeforeReset);
    assert Constant(1, 0) == [0] && Constant(1, 1) == [1] && Firsts(gens) == [a];
  }

  // ------------------------------------------------------ suggested

  /** `pred = { it is ByteArrayParamGen }`, per generator. */
  function ByteArrayFlags<V>(gens: seq<Gen<V>>): (r: seq<bool>)
    ensures |r| == |gens| && forall i :: 0 <= i < |gens| ==> r[i] == gens[i].isByteArrayGen
  {
    seq(|gens|, i requires 0 <= i < |gens| => gens[i].isByteArrayGen)
  }

  /** `{ RandomSingleParamChange(it, randSeed) }` with the default bounds, the seeded draws given by source. */
  function RandomProvider<V>(source: nat -> int, limit: nat): Provider<V>
  {
    g => RandomPass(g, source, false, limit, 200, 20000)
  }

  /**
   * The false provider of `Suggested`: `SeparateFixedAndUnfixedSize` with at
   * most 5 fixed generators of at most 500 values, all permutations of the
   * fixed ones and random single changes of the rest.
   */
  function SuggestedFalseProvider<V>(source: nat -> int, limit: nat): Provider<V>
  {
    g => SeparatePass(g, AllPermutationsPass, RandomProvider(source, limit), 500, 5)
  }

  /** The pass of `Suggested`: byte-array generators change evenly, the rest go to the false provider. */
  function SuggestedPass<V>(gens: seq<Gen<V>>, source: nat -> int, limit: nat): Result<seq<seq<V>>, string>
  {
    PartitionPassAsWritten(gens, ByteArrayFlags(gens), EvenPass, SuggestedFalseProvider(source, limit))
  }

  /** The tuples of a random pass hold one value per generator. */
  lemma RandomPassShape<V>(gens: seq<Gen<V>>, source: nat -> int, corrected: bool, limit: nat, maxDupe: int, hashSetMaxBeforeReset: int)
    ensures var r := RandomPass(gens, source, corrected, limit, maxDupe, hashSetMaxBeforeReset);
      r.Ok? ==> TupleLengths(r.value, |gens|)
  {
    if limit > 0 && !AnyEmpty(gens) {
      var start := if corrected then StartCorrected(gens) else StartAsWritten(gens);
      var step := Stepper(gens, source, JavaInts.ArrayHash, maxDupe, hashSetMaxBeforeReset);
      StepperIsRetry(gens, source, JavaInts.ArrayHash, maxDupe, hashSetMaxBeforeReset);
      RunValid(gens, source, JavaInts.ArrayHash, step, start, limit, maxDupe, hashSetMaxBeforeReset);
    }
  }

  /** Both providers of `Suggested` yield tuples that fit the generators they are given. */
  lemma SuggestedShapes<V>(gens: seq<Gen<V>>, source: nat -> int, limit: nat)
    ensures ProviderShape(EvenPass, gens) && ProviderShape(SuggestedFalseProvider(source, limit), gens)
  {
    EvenPassShape(gens);
    AllPermutationsShape(gens);
    RandomPassShape(gens, source, false, limit, 200, 20000);
  }

  /** `Suggested.iterator()`, for a consumer taking at most `limit` tuples. */
  method Suggested<V(0)>(gens: seq<Gen<V>>, source: nat -> int, limit: nat) returns (r: Result<seq<seq<V>>, string>)
    ensures SameOutcome(r, Delegate(SuggestedPass(gens, source, limit), limit))
  {
    SuggestedShapes(gens, source, limit);
    r := PartitionedAsWritten(gens, ByteArrayFlags(gens), EvenPass, SuggestedFalseProvider(source, limit), true, limit);
  }

  /** A predicate true of every generator hands them all to the true provider. */
  lemma PartitionAllTrue<V>(gens: seq<Gen<V>>, flags: seq<bool>, trueProvider: Provider<V>, falseProvider: Provider<V>)
    requires |flags| == |gens| && forall i :: 0 <= i < |flags| ==> flags[i]
    ensures PartitionPassAsWritten(gens, flags, trueProvider, falseProvider) == trueProvider(gens)
  {
    IndicesWhereNone(flags, false);
  }

  /** A predicate false of every generator, of at least one, hands them all to the false provider. */
  lemma PartitionAllFalse<V>(gens: seq<Gen<V>>, flags: seq<bool>, trueProvider: Provider<V>, falseProvider: Provider<V>)
    requires |flags| == |gens| && gens != [] && forall i :: 0 <= i < |flags| ==> !flags[i]
    ensures PartitionPassAsWritten(gens, flags, trueProvider, falseProvider) == falseProvider(gens)
  {
    IndicesWhereNone(flags, true);
    assert 0 in IndicesWhere(flags, false);
  }

  /** Byte arrays alone change evenly, one round per value of the longest. */
  lemma SuggestedByteArraysOnly<V>(gens: seq<Gen<V>>, source: nat -> int, limit: nat)
    requires forall i :: 0 <= i < |gens| ==> gens[i].isByteArrayGen
    ensures SuggestedPass(gens, source, limit) == EvenPass(gens)
  {
    PartitionAllTrue(gens, ByteArrayFlags(gens), EvenPass, SuggestedFalseProvider(source, limit));
  }

  /** Up to five small collections, none of them byte arrays, give their cartesian product. */
  lemma SuggestedSmallFixed<V>(gens: seq<Gen<V>>, source: nat -> int, limit: nat)
    requires gens != [] && |gens| <= 5
    requires forall i :: 0 <= i < |gens| ==> !gens[i].isByteArrayGen && FixedCandidate(gens[i], 500)
    ensures SuggestedPass(gens, source, limit) == Ok(Tuples(ValuesOf(gens)))
  {
    PartitionAllFalse(gens, ByteArrayFlags(gens), EvenPass, SuggestedFalseProvider(source, limit));
    SeparateAllFixed(gens, AllPermutationsPass, RandomProvider(source, limit), 500, 5);
  }

  /** Generators that are neither byte arrays nor small collections change one random slot at a time. */
  lemma SuggestedUnfixed<V>(gens: seq<Gen<V>>, source: nat -> int, limit: nat)
    requires gens != []
    requires forall i :: 0 <= i < |gens| ==> !gens[i].isByteArrayGen && !FixedCandidate(gens[i], 500)
    ensures SuggestedPass(gens, source, limit) == RandomPass(gens, source, false, limit, 200, 20000)
  {
    PartitionAllFalse(gens, ByteArrayFlags(gens), EvenPass, SuggestedFalseProvider(source, limit));
    SeparateNoneFixed(gens, AllPermutationsPass, RandomProvider(source, limit), 500, 5);
  }

  /** A byte array next to any other generator makes the first tuple fail. */
  lemma SuggestedMixedFails<V>(gens: seq<Gen<V>>, source: nat -> int, limit: nat)
    requires exists i :: 0 <= i < |gens| && gens[i].isByteArrayGen
    requires exists i :: 0 <= i < |gens| && !gens[i].isByteArrayGen
    ensures SuggestedPass(gens, source, limit).Err?
  {
    SuggestedShapes(gens, source, limit);
    var flags := ByteArrayFlags(gens);
    var i :| 0 <= i < |gens| && gens[i].isByteArrayGen;
    var i' :| 0 <= i' < |gens| && !gens[i'].isByteArrayGen;
    assert flags[i] && !flags[i'];
    MixedPartitionFails(gens, flags, EvenPass, SuggestedFalseProvider(source, limit), limit);
  }

  /** Within the suggested strategy, mixed fixed and unfixed generators fail as well. */
  lemma SuggestedMixedSizesFail<V>(gens: seq<Gen<V>>, source: nat -> int, limit: nat, i: nat, i': nat)
    requires forall k :: 0 <= k < |gens| ==> !gens[k].isByteArrayGen
    requires i < |gens| && i' < |gens| && i < 5 && FixedCandidate(gens[i], 500) && !FixedCandidate(gens[i'], 500)
    ensures SuggestedPass(gens, source, limit).Err?
  {
    PartitionAllFalse(gens, ByteArrayFlags(gens), EvenPass, SuggestedFalseProvider(source, limit));
    FirstFixedMixed(gens, 500, 5, i, i');
  }

  /** A candidate among the first maxParams generators is fixed, so with a non-candidate both sides are non-empty. */
  lemma FirstFixedMixed<V>(gens: seq<Gen<V>>, maxCount: int, maxParams: int, i: nat, i': nat)
    requires i < |gens| && i' < |gens| && i < maxParams && FixedCandidate(gens[i], maxCount) && !FixedCandidate(gens[i'], maxCount)
    ensures var fixed := FixedFlagsOf(gens, maxCount, maxParams);
      IndicesWhere(fixed, true) != [] && IndicesWhere(fixed, false) != []
  {
    var fixed := FixedFlagsOf(gens, maxCount, maxParams);
    FixedFlagsPointwise(gens, maxCount, maxParams, i);
    FixedFlagsPointwise(gens, maxCount, maxParams, i');
    assert CountTrue(fixed[..i]) <= i;
    assert i in IndicesWhere(fixed, true) && i' in IndicesWhere(fixed, false);
  }

}
