/**
 * What one async cycle of the coordinator guarantees for every chain of
 * interceptors and every work unit: hook ordering, which outcome wins, and
 * the shape of the adapter's call sequence.
 */
module WebAsyncProperties {
  import opened Wrappers
  import opened AsyncValues
  import opened Interceptors
  import opened WebAsync

  /** How many times `x` occurs in `s`. */
  function Occurrences<T(==)>(s: seq<T>, x: T): nat {
    if s == [] then 0 else (if s[0] == x then 1 else 0) + Occurrences(s[1..], x)
  }

  lemma {:induction false} OccurrencesAppend<T>(s: seq<T>, t: seq<T>, x: T)
    ensures Occurrences(s + t, x) == Occurrences(s, x) + Occurrences(t, x)
  {
    if s != [] {
      assert (s + t)[1..] == s[1..] + t;
      OccurrencesAppend(s[1..], t, x);
    } else {
      assert s + t == t;
    }
  }

  /**
   * The adapter calls of a cycle: a timeout comes first, before the timeout
   * handler; one completion handler and one suspension; and resumption happens
   * exactly once, last, right after the exchange reported that it is not
   * complete (never when it is).
   */
  lemma CycleTraceShape(timeout: Option<int>, complete: bool)
    ensures var t := StartTrace(timeout) + DispatchTrace(complete);
      && Occurrences(t, AdapterCall.Dispatch) == (if complete then 0 else 1)
      && Occurrences(t, AdapterCall.StartAsync) == 1
      && Occurrences(t, AdapterCall.AddCompletionHandler) == 1
      && (!complete ==> t[|t| - 1] == AdapterCall.Dispatch && t[|t| - 2] == AdapterCall.IsAsyncComplete)
      && (timeout.Some? ==> t[0] == AdapterCall.SetTimeout(timeout.value) && t[1] == AdapterCall.SetTimeoutHandler)
      && (timeout.None? ==> t[0] == AdapterCall.SetTimeoutHandler)
  {
    var pre := if timeout.Some? then [AdapterCall.SetTimeout(timeout.value)] else [];
    var mid := [AdapterCall.SetTimeoutHandler, AdapterCall.AddCompletionHandler, AdapterCall.StartAsync];
    var tail := if complete then [] else [AdapterCall.Dispatch];
    assert StartTrace(timeout) + DispatchTrace(complete) == pre + (mid + ([AdapterCall.IsAsyncComplete] + tail));
    OccurrencesAppend(pre, mid + ([AdapterCall.IsAsyncComplete] + tail), AdapterCall.Dispatch);
    OccurrencesAppend(mid, [AdapterCall.IsAsyncComplete] + tail, AdapterCall.Dispatch);
    OccurrencesAppend([AdapterCall.IsAsyncComplete], tail, AdapterCall.Dispatch);
    OccurrencesAppend(pre, mid + ([AdapterCall.IsAsyncComplete] + tail), AdapterCall.StartAsync);
    OccurrencesAppend(mid, [AdapterCall.IsAsyncComplete] + tail, AdapterCall.StartAsync);
    OccurrencesAppend([AdapterCall.IsAsyncComplete], tail, AdapterCall.StartAsync);
    OccurrencesAppend(pre, mid + ([AdapterCall.IsAsyncComplete] + tail), AdapterCall.AddCompletionHandler);
    OccurrencesAppend(mid, [AdapterCall.IsAsyncComplete] + tail, AdapterCall.AddCompletionHandler);
    OccurrencesAppend([AdapterCall.IsAsyncComplete], tail, AdapterCall.AddCompletionHandler);
  }

  /**
   * Every pre-process call of a cycle comes before every post-process call:
   * the first |PreCalls| hook calls are exactly the pre-process ones.
   */
  lemma PreProcessPrecedesPostProcess(chain: seq<Registration>, c: StubCallable)
    ensures var calls := CallableHookCalls(chain, c);
      forall k :: 0 <= k < |calls| ==> (calls[k].PreProcess? <==> k < |PreCalls(chain, CallableWork(c))|)
    ensures var calls := CallableHookCalls(chain, c);
      forall i, j :: 0 <= i < |calls| && 0 <= j < |calls| && calls[i].PreProcess? && calls[j].PostProcess? ==> i < j
  {
  }

  /** The same ordering on the deferred path, whatever value settles the result. */
  lemma DeferredPreProcessPrecedesPostProcess(chain: seq<Registration>, d: DeferredResult, v: Obj)
    ensures var calls := PreCalls(chain, DeferredWork(d)) + PostCalls(chain, DeferredWork(d), v);
      forall i, j :: 0 <= i < |calls| && 0 <= j < |calls| && calls[i].PreProcess? && calls[j].PostProcess? ==> i < j
  {
  }

  /**
   * With no interceptor failing, the concurrent result is the callable's own
   * value, returned or thrown (a thrown exception is recorded, not rethrown),
   * and every interceptor sees pre-process and then post-process with it.
   */
  lemma WorkOutcomeBecomesResult(chain: seq<Registration>, c: StubCallable)
    requires Raised(chain, Pre).None? && Raised(chain, Post).None?
    ensures CallableResult(chain, c) == c.value
    ensures var calls := CallableHookCalls(chain, c);
      && |calls| == 2 * |chain|
      && (forall k :: 0 <= k < |chain| ==> calls[k] == PreProcess(chain[k].key, CallableWork(c)))
      && (forall k :: 0 <= k < |chain| ==> calls[|chain| + k] == PostProcess(chain[k].key, CallableWork(c), c.value))
  {
  }

  /**
   * A pre-process exception becomes the concurrent result, the work is not
   * run and no post-process hook is called; the failing interceptor's call is
   * the last one.
   */
  lemma PreProcessFailureWins(chain: seq<Registration>, c: StubCallable)
    requires Raised(chain, Pre).Some?
    ensures CallableResult(chain, c) == ExcObj(Raised(chain, Pre).value)
    ensures var calls := CallableHookCalls(chain, c);
      && (forall k :: 0 <= k < |calls| ==> calls[k].PreProcess?)
      && calls != [] && calls[|calls| - 1].key == chain[FirstFault(chain, Pre).value].key
  {
  }

  /**
   * After a successful pre-process, the first post-process exception replaces
   * whatever the work produced, and every post-process call received that
   * product.
   */
  lemma PostProcessFailureReplacesResult(chain: seq<Registration>, c: StubCallable)
    requires Raised(chain, Pre).None? && Raised(chain, Post).Some?
    ensures CallableResult(chain, c) == ExcObj(Raised(chain, Post).value)
    ensures var calls := CallableHookCalls(chain, c);
      forall k :: 0 <= k < |calls| && calls[k].PostProcess? ==> calls[k].result == c.value
  {
  }
}
