/**
 * `ParameterProvider`: the older, function-style providers over arrays of
 * iterables.  Their loops are those of the `ParamProvider` classes and are
 * modelled once, there; what differs is when things happen.  `partitioned`
 * requires a non-empty generator array and partitions it eagerly, when it
 * is called, so an empty array fails before any tuple is asked for.
 */
module ParameterProvider {
  import opened Wrappers
  import PP = ParamProvider

  /** The message of Kotlin's `require` without a message. */
  const FAILED_REQUIREMENT := "Failed requirement."

  /**
   * What a consumer taking at most `limit` tuples gets from `partitioned`:
   * the failed requirement on an empty array, thrown at the call itself, or
   * the same partition-and-merge as `ParamProvider.Partitioned`.
   */
  function PartitionedOutcome<V>(gens: seq<PP.Gen<V>>, flags: seq<bool>, trueProvider: PP.Provider<V>, falseProvider: PP.Provider<V>,
                                 limit: nat): Result<seq<seq<V>>, string>
    requires |flags| == |gens|
  {
    if gens == [] then Err(FAILED_REQUIREMENT)
    else PP.Delegate(PP.PartitionPassAsWritten(gens, flags, trueProvider, falseProvider), limit)
  }

  /** `partitioned`, with the predicate's value for each generator in flags. */
  method Partitioned<V(0)>(gens: seq<PP.Gen<V>>, flags: seq<bool>, trueProvider: PP.Provider<V>, falseProvider: PP.Provider<V>,
                           stop: bool, limit: nat)
    returns (r: Result<seq<seq<V>>, string>)
    requires |flags| == |gens|
    requires PP.ProviderShape(trueProvider, gens) && PP.ProviderShape(falseProvider, gens)
    ensures PP.SameOutcome(r, PartitionedOutcome(gens, flags, trueProvider, falseProvider, limit))
  {
    if |gens| == 0 {
      return Err(FAILED_REQUIREMENT);
    }
    r := PP.PartitionedAsWritten(gens, flags, trueProvider, falseProvider, stop, limit);
  }

  /**
   * An empty generator array: `partitioned` fails even for a consumer that
   * takes nothing, while `ParamProvider.Partitioned` hands it to the true
   * provider.
   */
  lemma EmptyPartitionTwinsDiffer<V>(trueProvider: PP.Provider<V>, falseProvider: PP.Provider<V>)
    ensures PartitionedOutcome([], [], trueProvider, falseProvider, 0) == Err(FAILED_REQUIREMENT)
    ensures PP.PartitionPassAsWritten([], [], trueProvider, falseProvider) == trueProvider([])
  {
    PP.IndicesWhereNone([], false);
  }

  /**
   * `separateFixedAndUnfixedSize`: the `seenFixed` counter is captured once,
   * and the eager partition reads it once per generator, in order.
   */
  method SeparateFixedAndUnfixedSize<V(0)>(gens: seq<PP.Gen<V>>, fixedSizeProvider: PP.Provider<V>, unfixedSizeProvider: PP.Provider<V>,
                                           stop: bool, maxCount: int, maxParams: int, limit: nat)
    returns (r: Result<seq<seq<V>>, string>)
    requires PP.ProviderShape(fixedSizeProvider, gens) && PP.ProviderShape(unfixedSizeProvider, gens)
    ensures PP.SameOutcome(r, PartitionedOutcome(gens, PP.FixedFlagsOf(gens, maxCount, maxParams), fixedSizeProvider, unfixedSizeProvider, limit))
  {
    var flags := PP.FixedFlags(gens, maxCount, maxParams);
    r := Partitioned(gens, flags, fixedSizeProvider, unfixedSizeProvider, stop, limit);
  }

  /** The pass of `separateFixedAndUnfixedSize` used as a provider: the requirement, then the partition. */
  function SeparatePass<V>(gens: seq<PP.Gen<V>>, fixedSizeProvider: PP.Provider<V>, unfixedSizeProvider: PP.Provider<V>,
                           maxCount: int, maxParams: int): Result<seq<seq<V>>, string>
  {
    if gens == [] then Err(FAILED_REQUIREMENT)
    else PP.SeparatePass(gens, fixedSizeProvider, unfixedSizeProvider, maxCount, maxParams)
  }

  /**
   * `withFeedback`'s `onResult`: the indices of the `TypeGen.WithFeedback`
   * generators, each told its own index, in order.
   */
  method WithFeedbackOnResult<V>(gens: seq<PP.Gen<V>>) returns (calls: seq<nat>)
    ensures calls == PP.IndicesWhere(PP.FeedbackFlags(gens), true)
  {
    calls := PP.OnResult(gens);
  }

  /** `alwaysChangeEachParamEvenly`, the loop of `ParamProvider.EvenSingleParamChange`. */
  method AlwaysChangeEachParamEvenly<V>(gens: seq<PP.Gen<V>>, completeWhenAllCycled: bool, limit: nat)
    returns (r: Result<seq<seq<V>>, string>)
    ensures PP.SameOutcome(r, PP.EvenSpec(gens, completeWhenAllCycled, limit))
  {
    r := PP.EvenSingleParamChange(gens, completeWhenAllCycled, limit);
  }

  /** `allPermutations`, the recursion of `ParamProvider.AllPermutations`. */
  method AllPermutations<V(0)>(gens: seq<PP.Gen<V>>) returns (r: Result<seq<seq<V>>, string>)
    ensures r == PP.AllPermutationsPass(gens)
  {
    r := PP.AllPermutations(gens);
  }

  /** `randomSingleParamChange`, the loop of `ParamProvider.RandomSingleParamChange`; the draws are given by source. */
  method RandomSingleParamChange<V(0,!new)>(gens: seq<PP.Gen<V>>, source: nat -> int, limit: nat, hashSetMaxBeforeReset: int,
                                           maxDupeGenBeforeQuit: int)
    returns (r: Result<seq<seq<V>>, string>)
    ensures PP.SameOutcome(r, PP.RandomPass(gens, source, false, limit, maxDupeGenBeforeQuit, hashSetMaxBeforeReset))
  {
    r := PP.RandomSingleParamChange(gens, source, limit, hashSetMaxBeforeReset, maxDupeGenBeforeQuit);
  }

  // ------------------------------------------------------ suggested

  /** `separateFixedAndUnfixedSize(it, ::allPermutations, { randomSingleParamChange(it) })` with its defaults. */
  function WithoutFeedbackProvider<V>(source: nat -> int, limit: nat): PP.Provider<V>
  {
    g => SeparatePass(g, PP.AllPermutationsPass, PP.RandomProvider(source, limit), 500, 5)
  }

  /**
   * What a consumer taking at most `limit` tuples gets from `suggested`: a
   * partition by `is TypeGen.WithFeedback`, the feedback generators changed
   * one random slot at a time, the rest separated by size.
   */
  function SuggestedOutcome<V>(gens: seq<PP.Gen<V>>, source: nat -> int, limit: nat): Result<seq<seq<V>>, string>
  {
    PartitionedOutcome(gens, PP.FeedbackFlags(gens), PP.RandomProvider(source, limit), WithoutFeedbackProvider(source, limit), limit)
  }

  /** Both providers of `suggested` yield tuples that fit the generators they are given. */
  lemma SuggestedShapes<V>(gens: seq<PP.Gen<V>>, source: nat -> int, limit: nat)
    ensures PP.ProviderShape(PP.RandomProvider(source, limit), gens)
    ensures PP.ProviderShape(WithoutFeedbackProvider(source, limit), gens)
  {
    PP.AllPermutationsShape(gens);
    PP.RandomPassShape(gens, source, false, limit, 200, 20000);
  }

  /**
   * `separateWithAndWithoutFeedback`: `withFeedback` around a partition by
   * `is TypeGen.WithFeedback`.  The wrapped provider is built when the
   * object is, so an empty array fails at the call and leaves no object to
   * send results to; otherwise `onResult` goes to the feedback generators.
   */
  method SeparateWithAndWithoutFeedback<V(0)>(gens: seq<PP.Gen<V>>, withFeedbackProvider: PP.Provider<V>,
                                              withoutFeedbackProvider: PP.Provider<V>, stop: bool, limit: nat)
    returns (r: Result<seq<seq<V>>, string>, feedbackTo: seq<nat>)
    requires PP.ProviderShape(withFeedbackProvider, gens) && PP.ProviderShape(withoutFeedbackProvider, gens)
    ensures PP.SameOutcome(r, PartitionedOutcome(gens, PP.FeedbackFlags(gens), withFeedbackProvider, withoutFeedbackProvider, limit))
    ensures gens == [] ==> feedbackTo == []
    ensures gens != [] ==> feedbackTo == PP.IndicesWhere(PP.FeedbackFlags(gens), true)
  {
    feedbackTo := [];
    r := Partitioned(gens, PP.FeedbackFlags(gens), withFeedbackProvider, withoutFeedbackProvider, stop, limit);
    if |gens| == 0 {
      return;
    }
    feedbackTo := WithFeedbackOnResult(gens);
  }

  /** `suggested`: the tuples, and the generator indices its `onResult` forwards to. */
  method Suggested<V(0)>(gens: seq<PP.Gen<V>>, source: nat -> int, limit: nat) returns (r: Result<seq<seq<V>>, string>, feedbackTo: seq<nat>)
    ensures PP.SameOutcome(r, SuggestedOutcome(gens, source, limit))
    ensures gens == [] ==> feedbackTo == []
    ensures gens != [] ==> feedbackTo == PP.IndicesWhere(PP.FeedbackFlags(gens), true)
  {
    SuggestedShapes(gens, source, limit);
    r, feedbackTo := SeparateWithAndWithoutFeedback(gens, PP.RandomProvider(source, limit), WithoutFeedbackProvider(source, limit), true, limit);
  }

  /** Generators that all take feedback change one random slot at a time. */
  lemma SuggestedFeedbackOnly<V>(gens: seq<PP.Gen<V>>, source: nat -> int, limit: nat)
    requires gens != [] && forall i :: 0 <= i < |gens| ==> gens[i].withFeedback
    ensures SuggestedOutcome(gens, source, limit) == PP.Delegate(PP.RandomPass(gens, source, false, limit, 200, 20000), limit)
  {
    PP.PartitionAllTrue(gens, PP.FeedbackFlags(gens), PP.RandomProvider(source, limit), WithoutFeedbackProvider(source, limit));
  }

  /** Up to five small collections without feedback give their cartesian product. */
  lemma SuggestedSmallFixed<V>(gens: seq<PP.Gen<V>>, source: nat -> int, limit: nat)
    requires gens != [] && |gens| <= 5
    requires forall i :: 0 <= i < |gens| ==> !gens[i].withFeedback && PP.FixedCandidate(gens[i], 500)
    ensures SuggestedOutcome(gens, source, limit) == PP.Delegate(Ok(PP.Tuples(PP.ValuesOf(gens))), limit)
  {
    PP.PartitionAllFalse(gens, PP.FeedbackFlags(gens), PP.RandomProvider(source, limit), WithoutFeedbackProvider(source, limit));
    PP.SeparateAllFixed(gens, PP.AllPermutationsPass, PP.RandomProvider(source, limit), 500, 5);
  }

  /** Generators without feedback that are not small collections change one random slot at a time. */
  lemma SuggestedUnfixed<V>(gens: seq<PP.Gen<V>>, source: nat -> int, limit: nat)
    requires gens != []
    requires forall i :: 0 <= i < |gens| ==> !gens[i].withFeedback && !PP.FixedCandidate(gens[i], 500)
    ensures SuggestedOutcome(gens, source, limit) == PP.Delegate(PP.RandomPass(gens, source, false, limit, 200, 20000), limit)
  {
    PP.PartitionAllFalse(gens, PP.FeedbackFlags(gens), PP.RandomProvider(source, limit), WithoutFeedbackProvider(source, limit));
    PP.SeparateNoneFixed(gens, PP.AllPermutationsPass, PP.RandomProvider(source, limit), 500, 5);
  }

  /** A feedback generator next to one without feedback makes the first tuple fail. */
  lemma SuggestedMixedFeedbackFails<V>(gens: seq<PP.Gen<V>>, source: nat -> int, limit: nat, i: nat, i': nat)
    requires i < |gens| && i' < |gens| && gens[i].withFeedback && !gens[i'].withFeedback
    ensures SuggestedOutcome(gens, source, limit).Err? <==> limit > 0
  {
    SuggestedShapes(gens, source, limit);
    assert PP.FeedbackFlags(gens)[i] && !PP.FeedbackFlags(gens)[i'];
    PP.MixedPartitionFails(gens, PP.FeedbackFlags(gens), PP.RandomProvider(source, limit), WithoutFeedbackProvider(source, limit), limit);
  }

  /** No generators: `suggested` fails at the call, while `ParamProvider.Suggested` yields nothing. */
  lemma EmptySuggestedTwinsDiffer<V>(source: nat -> int, limit: nat)
    ensures SuggestedOutcome<V>([], source, limit) == Err(FAILED_REQUIREMENT)
    ensures PP.SuggestedPass<V>([], source, limit) == Ok([])
  {
    var none: seq<PP.Gen<V>> := [];
    PP.SuggestedByteArraysOnly(none, source, limit);
  }
}
