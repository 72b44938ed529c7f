/**
 * The fuzz loop of `Fuzzer.fuzz` run sequentially, and the
 * `TrackUniqueBranches` post-submission handler.
 *
 * The invoker is synchronous here: the future of dispatch k is already
 * complete when the loop looks at it, either normally with an execution
 * result or exceptionally.  What the timer, the invoker and the handler do is
 * given to the loop as functions of the dispatch index.
 */
module Fuzzer {
  import opened Wrappers
  import TraceResult
  import JavaInts

  /** The exceptions the loop tells apart. */
  datatype Throwable =
    | WrongMethodType(id: int)
    | Other(id: int)
    | ExecutionException(cause: Throwable)
    | FirstRunFailed(cause: Throwable)

  /** `ExecutionResult.InvokeResult`: the invoked method returned or threw. */
  datatype InvokeResult = Success(value: int) | Failure(ex: Throwable)

  /** `ExecutionResult`: how the invocation ended and the branches its trace resolved. */
  datatype ExecutionResult = ExecutionResult(invokeResult: InvokeResult, branches: seq<TraceResult.ResolvedBranch>)

  /** A completed `CompletableFuture<ExecutionResult>`. */
  datatype Completion = Normal(result: ExecutionResult) | Exceptional(ex: Throwable)

  /**
   * The parts of `Fuzzer.Config` the loop reads: the param sets the provider
   * yields, whether the provider is `ParamProvider.WithFeedback`, whether a
   * post-submission handler is set, and `stopOnFutureFailure`.
   */
  datatype Config<P> = Config(params: seq<P>, withFeedback: bool, hasHandler: bool, stopOnFutureFailure: bool)

  /** What the loop does to the outside, in order. */
  datatype Event<P> =
    | Invoke(k: nat, paramSet: P)
    | PostSubmission(k: nat)
    | OnResult(k: nat, result: ExecutionResult)
    | Shutdown
    | Close

  datatype Outcome = Finished | Threw(ex: Throwable)

  /**
   * The environment of one run: stopped(k) is what `stopper.get()` reads
   * before dispatch k, invoke(k) the future the invoker returns for it and
   * post(k) the future the handler returns for it (`None` for null).
   */
  datatype World = World(stopped: nat -> bool, invoke: nat -> Completion, post: nat -> Option<Completion>)

  /** The future the rest of iteration k works on: the handler's, when there is one. */
  function Submitted<P>(conf: Config<P>, w: World, k: nat): Option<Completion>
  {
    if conf.hasHandler then w.post(k) else Some(w.invoke(k))
  }

  /** The first dispatch fails the run when its future fails, or when the method threw a `WrongMethodTypeException`. */
  function FirstRunCheck(c: Completion): Option<Throwable>
  {
    if c.Exceptional? then Some(ExecutionException(c.ex))
    else if c.result.invokeResult.Failure? && c.result.invokeResult.ex.WrongMethodType? then Some(FirstRunFailed(c.result.invokeResult.ex))
    else None
  }

  /** The events of iteration k after its dispatch passed the first-run check. */
  function Submission<P>(conf: Config<P>, w: World, k: nat): seq<Event<P>>
  {
    var fut := Submitted(conf, w, k);
    (if conf.hasHandler then [PostSubmission(k)] else [])
      + (if conf.withFeedback && fut.Some? && fut.value.Normal? then [OnResult(k, fut.value.result)] else [])
  }

  /** What `whenComplete` latches for iteration k. */
  function Latched<P>(conf: Config<P>, w: World, k: nat): Option<Throwable>
  {
    var fut := Submitted(conf, w, k);
    if conf.stopOnFutureFailure && fut.Some? && fut.value.Exceptional? then Some(fut.value.ex) else None
  }

  /** The loop from param set k on, with the failure latched so far. */
  function Run<P>(conf: Config<P>, w: World, k: nat, latched: Option<Throwable>): (seq<Event<P>>, Outcome)
    requires k <= |conf.params|
    decreases |conf.params| - k
  {
    if k == |conf.params| || w.stopped(k) then ([], Finished)
    else if latched.Some? then ([], Threw(latched.value))
    else
      var check := if k == 0 then FirstRunCheck(w.invoke(k)) else None;
      if check.Some? then ([Invoke(k, conf.params[k])], Threw(check.value))
      else
        var rest := Run(conf, w, k + 1, Latched(conf, w, k));
        ([Invoke(k, conf.params[k])] + Submission(conf, w, k) + rest.0, rest.1)
  }

  /** `fuzz`: the loop, then in the `finally` block the invoker's shutdown and the provider's `close`. */
  function FuzzSpec<P>(conf: Config<P>, w: World): (seq<Event<P>>, Outcome)
  {
    var r := Run(conf, w, 0, None);
    (r.0 + [Shutdown, Close], r.1)
  }

  /** `fuzz`, one param set per iteration. */
  method Fuzz<P>(conf: Config<P>, w: World) returns (events: seq<Event<P>>, outcome: Outcome)
    ensures (events, outcome) == FuzzSpec(conf, w)
  {
    ghost var whole := Run(conf, w, 0, None);
    events := [];
    var first := true;
    var latched: Option<Throwable> := None;
    var thrown: Option<Throwable> := None;
    var k := 0;
    while k < |conf.params|
      invariant k <= |conf.params| && (first <==> k == 0)
      invariant events + Run(conf, w, k, latched).0 == whole.0 && Run(conf, w, k, latched).1 == whole.1
    {
      if w.stopped(k) {
        assert events + [] == events;
        break;
      }
      if latched.Some? {
        assert events + [] == events;
        thrown := latched;
        break;
      }
      ghost var start := events;
      var fut := w.invoke(k);
      events := events + [Invoke(k, conf.params[k])];
      if first {
        first := false;
        var check := FirstRunCheck(fut);
        if check.Some? {
          thrown := check;
          break;
        }
      }
      var added;
      added, latched := Submit(conf, w, k, fut);
      events := events + added;
      RunStep(conf, w, k, start, events, latched);
      k := k + 1;
    }
    if k == |conf.params| {
      assert events + [] == events;
    }
    events := events + [Shutdown, Close];
    outcome := if thrown.Some? then Threw(thrown.value) else Finished;
  }

  /**
   * The rest of iteration k on the invoker's future: the handler's
   * `postSubmission`, `onResult` for a provider that takes feedback, and the
   * failure `whenComplete` latches.
   */
  method Submit<P>(conf: Config<P>, w: World, k: nat, fut: Completion) returns (added: seq<Event<P>>, latched: Option<Throwable>)
    requires fut == w.invoke(k)
    ensures added == Submission(conf, w, k) && latched == Latched(conf, w, k)
  {
    added := [];
    var submitted := Some(fut);
    if conf.hasHandler {
      submitted := w.post(k);
      added := added + [PostSubmission(k)];
    }
    if conf.withFeedback && submitted.Some? && submitted.value.Normal? {
      added := added + [OnResult(k, submitted.value.result)];
    }
    latched := None;
    if conf.stopOnFutureFailure && submitted.Some? && submitted.value.Exceptional? {
      latched := Some(submitted.value.ex);
    }
  }

  /** One iteration that passes the first-run check: its events, then the rest of the run. */
  lemma RunStep<P>(conf: Config<P>, w: World, k: nat, start: seq<Event<P>>, events: seq<Event<P>>, latched: Option<Throwable>)
    requires k < |conf.params| && !w.stopped(k) && (k == 0 ==> FirstRunCheck(w.invoke(k)).None?)
    requires events == start + [Invoke(k, conf.params[k])] + Submission(conf, w, k) && latched == Latched(conf, w, k)
    ensures start + Run(conf, w, k, None).0 == events + Run(conf, w, k + 1, latched).0
    ensures Run(conf, w, k, None).1 == Run(conf, w, k + 1, latched).1
  {
    var rest := Run(conf, w, k + 1, latched);
    assert start + ([Invoke(k, conf.params[k])] + Submission(conf, w, k) + rest.0) == events + rest.0;
  }

  // ---------------------------------------------------------- what a run promises

  /** The loop itself never shuts the invoker down or closes the provider. */
  lemma {:induction false} RunNoCleanup<P>(conf: Config<P>, w: World, k: nat, latched: Option<Throwable>)
    requires k <= |conf.params|
    ensures forall e :: e in Run(conf, w, k, latched).0 ==> !e.Shutdown? && !e.Close?
    decreases |conf.params| - k
  {
    if k < |conf.params| && !w.stopped(k) && latched.None? && (k == 0 ==> FirstRunCheck(w.invoke(k)).None?) {
      RunNoCleanup(conf, w, k + 1, Latched(conf, w, k));
    }
  }

  /** On every way out, finished or thrown, the invoker is shut down once and then the provider is closed, last. */
  lemma CleanupLast<P>(conf: Config<P>, w: World)
    ensures var evs := FuzzSpec(conf, w).0;
      |evs| >= 2 && evs[|evs| - 2] == Shutdown && evs[|evs| - 1] == Close
      && forall i :: 0 <= i < |evs| - 2 ==> !evs[i].Shutdown? && !evs[i].Close?
  {
    var r := Run(conf, w, 0, None);
    RunNoCleanup(conf, w, 0, None);
    assert forall i :: 0 <= i < |r.0| ==> r.0[i] in r.0;
  }

  /** No param set at or after a dispatch that found the stop flag set is invoked. */
  lemma {:induction false} RunStops<P>(conf: Config<P>, w: World, k: nat, latched: Option<Throwable>, j: nat)
    requires k <= |conf.params| && k <= j && w.stopped(j)
    ensures forall e :: e in Run(conf, w, k, latched).0 && e.Invoke? ==> e.k < j
    decreases |conf.params| - k
  {
    if k < |conf.params| && !w.stopped(k) && latched.None? && (k == 0 ==> FirstRunCheck(w.invoke(k)).None?) {
      RunStops(conf, w, k + 1, Latched(conf, w, k), j);
    }
  }

  lemma StopHonoured<P>(conf: Config<P>, w: World, j: nat)
    requires w.stopped(j)
    ensures forall e :: e in FuzzSpec(conf, w).0 && e.Invoke? ==> e.k < j
  {
    RunStops(conf, w, 0, None, j);
  }

  /** A run that finishes without meeting the stop flag has invoked every param set, in order. */
  lemma {:induction false} RunDispatchesAll<P>(conf: Config<P>, w: World, k: nat, latched: Option<Throwable>)
    requires k <= |conf.params| && Run(conf, w, k, latched).1 == Finished
    requires forall j :: k <= j < |conf.params| ==> !w.stopped(j)
    ensures forall j :: k <= j < |conf.params| ==> Invoke(j, conf.params[j]) in Run(conf, w, k, latched).0
    decreases |conf.params| - k
  {
    if k < |conf.params| {
      RunDispatchesAll(conf, w, k + 1, Latched(conf, w, k));
    }
  }

  lemma FinishedDispatchesAll<P>(conf: Config<P>, w: World)
    requires FuzzSpec(conf, w).1 == Finished && forall j :: 0 <= j < |conf.params| ==> !w.stopped(j)
    ensures forall j :: 0 <= j < |conf.params| ==> Invoke(j, conf.params[j]) in FuzzSpec(conf, w).0
  {
    RunDispatchesAll(conf, w, 0, None);
  }

  /** No future the invoker or the handler returns fails with the fuzzer's own exception. */
  ghost predicate Foreign(w: World)
  {
    (forall k :: w.invoke(k).Exceptional? ==> !w.invoke(k).ex.FirstRunFailed?)
    && (forall k :: w.post(k).Some? && w.post(k).value.Exceptional? ==> !w.post(k).value.ex.FirstRunFailed?)
  }

  lemma {:induction false} RunFirstRunFailedLater<P>(conf: Config<P>, w: World, k: nat, latched: Option<Throwable>)
    requires 0 < k <= |conf.params| && Foreign(w) && (latched.Some? ==> !latched.value.FirstRunFailed?)
    ensures var o := Run(conf, w, k, latched).1; o.Threw? ==> !o.ex.FirstRunFailed?
    decreases |conf.params| - k
  {
    if k < |conf.params| && !w.stopped(k) && latched.None? {
      RunFirstRunFailedLater(conf, w, k + 1, Latched(conf, w, k));
    }
  }

  /**
   * The run fails with `FirstRunFailed` exactly when the first dispatch is made
   * and its method threw a `WrongMethodTypeException`; it then stops after that
   * one invocation.
   */
  lemma FirstRunFailedIff<P>(conf: Config<P>, w: World)
    requires Foreign(w)
    ensures var r := FuzzSpec(conf, w);
      (r.1.Threw? && r.1.ex.FirstRunFailed?)
      <==> (|conf.params| > 0 && !w.stopped(0) && w.invoke(0).Normal?
            && w.invoke(0).result.invokeResult.Failure? && w.invoke(0).result.invokeResult.ex.WrongMethodType?)
    ensures var r := FuzzSpec(conf, w);
      r.1.Threw? && r.1.ex.FirstRunFailed? ==> r.0 == [Invoke(0, conf.params[0]), Shutdown, Close]
  {
    if |conf.params| > 0 && !w.stopped(0) && FirstRunCheck(w.invoke(0)).None? {
      RunFirstRunFailedLater(conf, w, 1, Latched(conf, w, 0));
    }
  }

  /** The `onResult` calls of evs each follow the event that produced their result. */
  ghost predicate FeedbackOrder<P>(conf: Config<P>, w: World, evs: seq<Event<P>>)
  {
    forall i :: 0 <= i < |evs| && evs[i].OnResult? ==>
      conf.withFeedback && i > 0 && evs[i].k < |conf.params|
      && (conf.hasHandler ==> evs[i - 1] == PostSubmission(evs[i].k))
      && (!conf.hasHandler ==> evs[i - 1] == Invoke(evs[i].k, conf.params[evs[i].k]) && w.invoke(evs[i].k) == Normal(evs[i].result))
  }

  lemma FeedbackOrderAppend<P>(conf: Config<P>, w: World, a: seq<Event<P>>, b: seq<Event<P>>)
    requires FeedbackOrder(conf, w, a) && FeedbackOrder(conf, w, b) && (|b| > 0 ==> !b[0].OnResult?)
    ensures FeedbackOrder(conf, w, a + b)
  {
    forall i | |a| <= i < |a| + |b| && (a + b)[i].OnResult?
      ensures (a + b)[i - 1] == b[i - |a| - 1]
    {
    }
  }

  /**
   * `onResult` reaches the provider only when it takes feedback, and right
   * after the handler's `postSubmission` for the same dispatch (after the
   * dispatch itself when there is no handler, with the invoker's result).
   */
  lemma {:induction false} RunOnResult<P>(conf: Config<P>, w: World, k: nat, latched: Option<Throwable>)
    requires k <= |conf.params|
    ensures var evs := Run(conf, w, k, latched).0; FeedbackOrder(conf, w, evs) && (|evs| > 0 ==> evs[0].Invoke?)
    decreases |conf.params| - k
  {
    if k < |conf.params| && !w.stopped(k) && latched.None? && (k == 0 ==> FirstRunCheck(w.invoke(k)).None?) {
      RunOnResult(conf, w, k + 1, Latched(conf, w, k));
      var head: seq<Event<P>> := [Invoke(k, conf.params[k])] + Submission(conf, w, k);
      var rest: seq<Event<P>> := Run(conf, w, k + 1, Latched(conf, w, k)).0;
      IterationFeedbackOrder(conf, w, k);
      FeedbackOrderAppend(conf, w, head, rest);
    }
  }

  /** Within one iteration, `onResult` follows the `postSubmission` (or the dispatch) it belongs to. */
  lemma IterationFeedbackOrder<P>(conf: Config<P>, w: World, k: nat)
    requires k < |conf.params|
    ensures FeedbackOrder(conf, w, [Invoke(k, conf.params[k])] + Submission(conf, w, k))
  {
    var evs := [Invoke(k, conf.params[k])] + Submission(conf, w, k);
    if conf.hasHandler {
      assert forall i :: 0 <= i < |evs| && evs[i].OnResult? ==> i == 2 && evs[1] == PostSubmission(k);
    } else {
      assert forall i :: 0 <= i < |evs| && evs[i].OnResult? ==> i == 1;
    }
  }

  lemma OnResultAfterPostSubmission<P>(conf: Config<P>, w: World)
    ensures FeedbackOrder(conf, w, FuzzSpec(conf, w).0)
  {
    RunOnResult(conf, w, 0, None);
    FeedbackOrderAppend(conf, w, Run(conf, w, 0, None).0, [Shutdown, Close]);
  }

  /**
   * With `stopOnFutureFailure`, a future of dispatch j that fails is rethrown
   * at the top of the next iteration, unless the stop flag ends the loop
   * first, and dispatch j + 1 is never made.  (A first dispatch that fails the
   * first-run check ends the run before its future is looked at again.)
   */
  lemma {:induction false} RunLatched<P>(conf: Config<P>, w: World, k: nat, latched: Option<Throwable>, j: nat)
    requires k <= j && j + 1 < |conf.params| && Latched(conf, w, j).Some? && !w.stopped(j + 1)
    requires Invoke(j, conf.params[j]) in Run(conf, w, k, latched).0 && (j == 0 ==> FirstRunCheck(w.invoke(0)).None?)
    ensures Run(conf, w, k, latched).1 == Threw(Latched(conf, w, j).value)
    ensures Invoke(j + 1, conf.params[j + 1]) !in Run(conf, w, k, latched).0
    decreases |conf.params| - k
  {
    var head: seq<Event<P>> := [Invoke(k, conf.params[k])] + Submission(conf, w, k);
    assert forall e :: e in head && e.Invoke? ==> e.k == k;
    if k < j {
      RunLatched(conf, w, k + 1, Latched(conf, w, k), j);
    } else {
      assert Run(conf, w, j + 1, Latched(conf, w, j)) == ([], Threw(Latched(conf, w, j).value));
    }
  }

  lemma FutureFailureRethrown<P>(conf: Config<P>, w: World, j: nat)
    requires j + 1 < |conf.params| && Latched(conf, w, j).Some? && !w.stopped(j + 1)
    requires Invoke(j, conf.params[j]) in FuzzSpec(conf, w).0 && (j == 0 ==> FirstRunCheck(w.invoke(0)).None?)
    ensures FuzzSpec(conf, w).1 == Threw(Latched(conf, w, j).value)
    ensures Invoke(j + 1, conf.params[j + 1]) !in FuzzSpec(conf, w).0
  {
    RunLatched(conf, w, 0, None, j);
  }

  /** Without `stopOnFutureFailure` nothing is latched, and only the first dispatch can end the run with an exception. */
  lemma {:induction false} RunUnlatched<P>(conf: Config<P>, w: World, k: nat)
    requires 0 < k <= |conf.params| && !conf.stopOnFutureFailure
    ensures Run(conf, w, k, None).1 == Finished
    decreases |conf.params| - k
  {
    if k < |conf.params| && !w.stopped(k) {
      RunUnlatched(conf, w, k + 1);
    }
  }

  lemma OnlyFirstRunThrows<P>(conf: Config<P>, w: World)
    requires !conf.stopOnFutureFailure && FuzzSpec(conf, w).1.Threw?
    ensures FuzzSpec(conf, w).0 == [Invoke(0, conf.params[0]), Shutdown, Close]
  {
    if |conf.params| > 0 && !w.stopped(0) && FirstRunCheck(w.invoke(0)).None? {
      RunUnlatched(conf, w, 1);
    }
  }

  // ---------------------------------------------------------- TrackUniqueBranches

  /** The fingerprint `TrackUniqueBranches` files a result under: the trace hash with or without hit counts. */
  function Fingerprint(res: ExecutionResult, includeHitCounts: bool): int
  {
    TraceResult.StableBranchesHash(res.branches, includeHitCounts)
  }

  /** The fingerprints of us, in order. */
  function Hashes(us: seq<ExecutionResult>, includeHitCounts: bool): (hs: seq<int>)
    ensures |hs| == |us| && forall i :: 0 <= i < |us| ==> hs[i] == Fingerprint(us[i], includeHitCounts)
  {
    seq(|us|, i requires 0 <= i < |us| => Fingerprint(us[i], includeHitCounts))
  }

  function Elements(hs: seq<int>): (r: set<int>)
    ensures forall h :: h in r <==> h in hs
  {
    set i | 0 <= i < |hs| :: hs[i]
  }

  /** No two of hs are equal, and none of them is in initial. */
  ghost predicate NewAndDistinct(hs: seq<int>, initial: set<int>)
  {
    (forall i :: 0 <= i < |hs| ==> hs[i] !in initial)
    && (forall i, j :: 0 <= i < j < |hs| ==> hs[i] != hs[j])
  }

  /** The backing set grows by exactly one fingerprint per result handed to `onUnique`. */
  lemma {:induction false} UniqueCount(hs: seq<int>, initial: set<int>)
    requires NewAndDistinct(hs, initial)
    ensures |initial + Elements(hs)| == |initial| + |hs|
    decreases |hs|
  {
    if hs != [] {
      var last := |hs| - 1;
      var front := hs[..last];
      assert NewAndDistinct(front, initial);
      UniqueCount(front, initial);
      assert Elements(hs) == Elements(front) + {hs[last]};
      assert hs[last] !in initial + Elements(front);
      assert initial + Elements(hs) == (initial + Elements(front)) + {hs[last]};
    }
  }

  /** The backing set is the initial fingerprints plus those of the results handed to `onUnique`, each new once. */
  ghost predicate Tracked(backingSet: set<int>, unique: seq<ExecutionResult>, includeHitCounts: bool, initial: set<int>)
  {
    var hs := Hashes(unique, includeHitCounts);
    backingSet == initial + Elements(hs) && NewAndDistinct(hs, initial)
  }

  /** `backingSet.add` of a result's fingerprint, with `onUnique` exactly when the add reports it new, keeps the account. */
  lemma TrackedAdd(backingSet: set<int>, unique: seq<ExecutionResult>, includeHitCounts: bool, initial: set<int>, res: ExecutionResult)
    requires Tracked(backingSet, unique, includeHitCounts, initial)
    ensures var h := Fingerprint(res, includeHitCounts);
      Tracked(backingSet + {h}, if h in backingSet then unique else unique + [res], includeHitCounts, initial)
  {
    var h := Fingerprint(res, includeHitCounts);
    if h !in backingSet {
      var hs := Hashes(unique, includeHitCounts);
      assert Hashes(unique + [res], includeHitCounts) == hs + [h];
      assert Elements(hs + [h]) == Elements(hs) + {h};
    }
  }

  /**
   * `PostSubmissionHandler.TrackUniqueBranches`: counts every result and hands
   * a result to `onUnique` when its fingerprint was not yet in the backing
   * set.  `onUnique` is abstract; the model records the results it is given.
   */
  class TrackUniqueBranches {
    const includeHitCounts: bool
    var backingSet: set<int>
    var totalExecutions: int
    var unique: seq<ExecutionResult>
    /** The fingerprints the backing set held when the handler was built. */
    ghost const initial: set<int>

    ghost predicate Valid()
      reads this
    {
      JavaInts.IsLong(totalExecutions) && Tracked(backingSet, unique, includeHitCounts, initial)
    }

    constructor (includeHitCounts: bool, backingSet: set<int>)
      ensures Valid() && this.includeHitCounts == includeHitCounts && initial == backingSet
      ensures this.backingSet == backingSet && totalExecutions == 0 && unique == []
    {
      this.includeHitCounts := includeHitCounts;
      this.backingSet := backingSet;
      initial := backingSet;
      totalExecutions := 0;
      unique := [];
    }

    /**
     * `postSubmission`'s `thenApply`: on a normal result the count goes up by
     * one (as a long) and `onUnique` runs iff `backingSet.add` reports the
     * fingerprint as new; the future's outcome passes through unchanged, and
     * a failed future skips the whole step.
     */
    method PostSubmission(fut: Completion) returns (r: Completion)
      requires Valid()
      modifies this
      ensures Valid() && r == fut
      ensures fut.Exceptional? ==> backingSet == old(backingSet) && totalExecutions == old(totalExecutions) && unique == old(unique)
      ensures fut.Normal? ==>
        var h := Fingerprint(fut.result, includeHitCounts);
        totalExecutions == JavaInts.Wrap64(old(totalExecutions) + 1)
        && backingSet == old(backingSet) + {h}
        && unique == old(unique) + (if h in old(backingSet) then [] else [fut.result])
    {
      r := fut;
      if fut.Normal? {
        totalExecutions := JavaInts.Wrap64(totalExecutions + 1);
        var h := Fingerprint(fut.result, includeHitCounts);
        TrackedAdd(backingSet, unique, includeHitCounts, initial, fut.result);
        var added := h !in backingSet;
        backingSet := backingSet + {h};
        if added {
          OnUnique(fut.result);
        }
      }
    }

    /** `onUnique`, recorded. */
    method OnUnique(res: ExecutionResult)
      modifies this
      ensures unique == old(unique) + [res] && backingSet == old(backingSet) && totalExecutions == old(totalExecutions)
    {
      unique := unique + [res];
    }

    /** As many fingerprints are new to the backing set as results were handed to `onUnique`. */
    lemma CountsUnique()
      requires Valid()
      ensures |backingSet| == |initial| + |unique|
    {
      UniqueCount(Hashes(unique, includeHitCounts), initial);
    }
  }
}
