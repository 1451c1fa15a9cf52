/**
 * The manager's test cases, each as a method that builds the objects the test
 * builds and promises, in its postcondition, what the test asserts: the
 * adapter's exact call sequence (the strict mock), the interceptor hook calls
 * and the concurrent result. Where the test fixes one value, the method
 * takes any.
 */
module WebAsyncScenarios {
  import opened Wrappers
  import opened AsyncValues
  import opened Interceptors
  import opened WebAsync

  const Key := "interceptor"
  const Quiet := Interceptor(None, None)

  /** The fixture: a manager with the synchronous executor and a fresh adapter attached. */
  method SetUp() returns (m: WebAsyncManager, r: AsyncWebRequest)
    ensures fresh(m) && fresh(r)
    ensures m.Valid() && m.adapter == r && m.taskExecutor == SyncExecutor
    ensures m.callableInterceptors == EmptyRegistry && m.deferredInterceptors == EmptyRegistry
    ensures m.concurrentResult.None? && m.hookCalls == [] && m.submissions == [] && m.pending == []
    ensures r.calls == [AdapterCall.AddCompletionHandler] && !r.asyncStarted && !r.asyncComplete && r.timeout.None?
  {
    m := new WebAsyncManager();
    m.SetTaskExecutor(SyncExecutor);
    r := new AsyncWebRequest(false);
    var err := m.SetAsyncWebRequest(r);
  }

  /** Without an adapter both entry points fail with the same IllegalState. */
  method StartWithoutAsyncWebRequest() returns (e1: Option<Exc>, e2: Option<Exc>)
    ensures e1 == Some(IllegalState("AsyncWebRequest must not be null"))
    ensures e2 == Some(IllegalState("AsyncWebRequest must not be null"))
  {
    var m := new WebAsyncManager();
    e1 := m.StartCallableProcessing(Some(StubCallable(IntObj(1))));
    var d := new DeferredResult(None);
    e2 := m.StartDeferredResultProcessing(d);
  }

  /** The manager reports whatever the adapter reports, asking it each time. */
  method ConcurrentHandlingStarted() returns (before: bool, after: bool, trace: seq<AdapterCall>)
    ensures !before && after
    ensures trace == [AdapterCall.IsAsyncStarted, AdapterCall.StartAsync, AdapterCall.IsAsyncStarted]
  {
    var m, r := SetUp();
    before := m.IsConcurrentHandlingStarted();
    r.StartAsync();
    after := m.IsConcurrentHandlingStarted();
    trace := r.calls[1..];
  }

  /** Attaching a null adapter is rejected, even after async processing started. */
  method SetNullAsyncWebRequest() returns (err: Option<Exc>)
    ensures err == Some(IllegalArgument("AsyncWebRequest must not be null"))
  {
    var m, r := SetUp();
    r.StartAsync();
    err := m.SetAsyncWebRequest(null);
  }

  /**
   * A callable with any value (21 in one test, an exception in the other):
   * the value becomes the concurrent result, the interceptor sees preProcess
   * then postProcess with it, and the adapter is resumed once.
   */
  method StartCallable(value: Obj) returns (has: bool, result: Option<Obj>, trace: seq<AdapterCall>, hooks: seq<HookCall<Work>>)
    ensures has && result == Some(value)
    ensures trace == [AdapterCall.SetTimeoutHandler, AdapterCall.AddCompletionHandler, AdapterCall.StartAsync,
                      AdapterCall.IsAsyncComplete, AdapterCall.Dispatch]
    ensures hooks == [PreProcess(Key, CallableWork(StubCallable(value))),
                      PostProcess(Key, CallableWork(StubCallable(value)), value)]
  {
    var m, r := SetUp();
    m.RegisterCallableInterceptor(Key, Quiet);
    var err := m.StartCallableProcessing(Some(StubCallable(value)));
    has, result := m.HasConcurrentResult(), m.GetConcurrentResult();
    trace, hooks := r.calls[1..], m.hookCalls;
  }

  /** A throwing preProcess: its exception is the result and postProcess is never called. */
  method StartCallablePreProcessException(value: Obj, e: Exc) returns (has: bool, result: Option<Obj>, trace: seq<AdapterCall>, hooks: seq<HookCall<Work>>)
    ensures has && result == Some(ExcObj(e))
    ensures trace == [AdapterCall.SetTimeoutHandler, AdapterCall.AddCompletionHandler, AdapterCall.StartAsync,
                      AdapterCall.IsAsyncComplete, AdapterCall.Dispatch]
    ensures hooks == [PreProcess(Key, CallableWork(StubCallable(value)))]
  {
    var m, r := SetUp();
    m.RegisterCallableInterceptor(Key, Interceptor(Some(e), None));
    var err := m.StartCallableProcessing(Some(StubCallable(value)));
    has, result := m.HasConcurrentResult(), m.GetConcurrentResult();
    trace, hooks := r.calls[1..], m.hookCalls;
  }

  /** A throwing postProcess: its exception replaces the callable's value. */
  method StartCallablePostProcessException(value: Obj, e: Exc) returns (has: bool, result: Option<Obj>, trace: seq<AdapterCall>, hooks: seq<HookCall<Work>>)
    ensures has && result == Some(ExcObj(e))
    ensures trace == [AdapterCall.SetTimeoutHandler, AdapterCall.AddCompletionHandler, AdapterCall.StartAsync,
                      AdapterCall.IsAsyncComplete, AdapterCall.Dispatch]
    ensures hooks == [PreProcess(Key, CallableWork(StubCallable(value))),
                      PostProcess(Key, CallableWork(StubCallable(value)), value)]
  {
    var m, r := SetUp();
    m.RegisterCallableInterceptor(Key, Interceptor(None, Some(e)));
    var err := m.StartCallableProcessing(Some(StubCallable(value)));
    has, result := m.HasConcurrentResult(), m.GetConcurrentResult();
    trace, hooks := r.calls[1..], m.hookCalls;
  }

  /**
   * A task with a timeout and its own executor: the timeout goes to the
   * adapter first, the work is submitted to that executor once, and nothing
   * is dispatched until it runs.
   */
  method StartCallableWithAsyncTask(value: Obj, timeout: int)
    returns (submitted: seq<Executor>, trace: seq<AdapterCall>, has: bool, pending: seq<PendingTask>)
    ensures submitted == [PooledExecutor("executor")] && !has
    ensures trace == [AdapterCall.SetTimeout(timeout), AdapterCall.SetTimeoutHandler,
                      AdapterCall.AddCompletionHandler, AdapterCall.StartAsync]
    ensures pending == [PendingTask([], StubCallable(value))]
  {
    var m, r := SetUp();
    assert m.callableInterceptors.Chain() == [];
    var err := m.StartTaskProcessing(AsyncTask(Some(timeout), Some(PooledExecutor("executor")), StubCallable(value)));
    assert r.calls == [AdapterCall.AddCompletionHandler] + StartTrace(Some(timeout));
    submitted, trace, has, pending := m.submissions, r.calls[1..], m.HasConcurrentResult(), m.pending;
  }

  /** When the executor runs submitted work, its value becomes the result and the adapter is resumed once. */
  method SubmittedTaskRunsLater(value: Obj)
    returns (result: Option<Obj>, traceAtStart: seq<AdapterCall>, traceAfterRun: seq<AdapterCall>)
    ensures result == Some(value)
    ensures traceAfterRun == traceAtStart + [AdapterCall.IsAsyncComplete, AdapterCall.Dispatch]
  {
    var m, r := SetUp();
    var err := m.StartTaskProcessing(AsyncTask(None, Some(PooledExecutor("executor")), StubCallable(value)));
    traceAtStart := r.calls[1..];
    m.RunSubmittedTask(0);
    result, traceAfterRun := m.GetConcurrentResult(), r.calls[1..];
  }

  /** A null callable is rejected with IllegalArgument and the adapter is not touched. */
  method StartCallableNullInput() returns (err: Option<Exc>, trace: seq<AdapterCall>)
    ensures err == Some(IllegalArgument("Callable must not be null")) && trace == []
  {
    var m, r := SetUp();
    err := m.StartCallableProcessing(None);
    trace := r.calls[1..];
  }

  /**
   * A deferred result with a timeout, settled after the start: the timeout
   * goes first, the settled value becomes the concurrent result, and the
   * adapter is resumed once.
   */
  method StartDeferredResult(value: Obj, timeout: int)
    returns (d: DeferredResult, accepted: bool, result: Option<Obj>, trace: seq<AdapterCall>, hooks: seq<HookCall<Work>>)
    ensures accepted && result == Some(value)
    ensures trace == [AdapterCall.SetTimeout(timeout), AdapterCall.SetTimeoutHandler, AdapterCall.AddCompletionHandler,
                      AdapterCall.StartAsync, AdapterCall.IsAsyncComplete, AdapterCall.Dispatch]
    ensures hooks == [PreProcess(Key, DeferredWork(d)), PostProcess(Key, DeferredWork(d), value)]
  {
    var m, r := SetUp();
    d := new DeferredResult(Some(timeout));
    m.RegisterDeferredResultInterceptor(Key, Quiet);
    var err := m.StartDeferredResultProcessing(d);
    accepted := d.SetResult(value);
    result, trace, hooks := m.GetConcurrentResult(), r.calls[1..], m.hookCalls;
  }

  /** A throwing preProcess on the deferred path: dispatched at once; settling later changes nothing. */
  method StartDeferredResultPreProcessException(value: Obj, e: Exc)
    returns (d: DeferredResult, result: Option<Obj>, trace: seq<AdapterCall>, hooks: seq<HookCall<Work>>)
    ensures result == Some(ExcObj(e))
    ensures trace == [AdapterCall.SetTimeoutHandler, AdapterCall.AddCompletionHandler, AdapterCall.StartAsync,
                      AdapterCall.IsAsyncComplete, AdapterCall.Dispatch]
    ensures hooks == [PreProcess(Key, DeferredWork(d))]
  {
    var m, r := SetUp();
    d := new DeferredResult(None);
    m.RegisterDeferredResultInterceptor(Key, Interceptor(Some(e), None));
    var err := m.StartDeferredResultProcessing(d);
    var accepted := d.SetResult(value);
    result, trace, hooks := m.GetConcurrentResult(), r.calls[1..], m.hookCalls;
  }

  /** A throwing postProcess on the deferred path: its exception replaces the settled value. */
  method StartDeferredResultPostProcessException(value: Obj, e: Exc)
    returns (d: DeferredResult, result: Option<Obj>, trace: seq<AdapterCall>, hooks: seq<HookCall<Work>>)
    ensures result == Some(ExcObj(e))
    ensures trace == [AdapterCall.SetTimeoutHandler, AdapterCall.AddCompletionHandler, AdapterCall.StartAsync,
                      AdapterCall.IsAsyncComplete, AdapterCall.Dispatch]
    ensures hooks == [PreProcess(Key, DeferredWork(d)), PostProcess(Key, DeferredWork(d), value)]
  {
    var m, r := SetUp();
    d := new DeferredResult(None);
    m.RegisterDeferredResultInterceptor(Key, Interceptor(None, Some(e)));
    var err := m.StartDeferredResultProcessing(d);
    var accepted := d.SetResult(value);
    result, trace, hooks := m.GetConcurrentResult(), r.calls[1..], m.hookCalls;
  }

  /** A null deferred result is rejected with IllegalArgument and the adapter is not touched. */
  method StartDeferredResultNullInput() returns (err: Option<Exc>, trace: seq<AdapterCall>)
    ensures err == Some(IllegalArgument("DeferredResult must not be null")) && trace == []
  {
    var m, r := SetUp();
    err := m.StartDeferredResultProcessing(null);
    trace := r.calls[1..];
  }
}
