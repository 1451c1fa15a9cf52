/**
 * The async request coordinator (WebAsyncManager) with the host's async
 * request adapter and the deferred-result handle, as fixed by the manager's
 * tests: the adapter records every call made on it, interceptors are
 * described by whether their hooks throw, and a synchronous executor runs
 * submitted work inline so that one async cycle is one sequential run.
 */
module WebAsync {
  import opened Wrappers
  import opened AsyncValues
  import opened Interceptors

  /** One call the coordinator makes on the adapter. */
  datatype AdapterCall =
    | SetTimeout(millis: int)
    | SetTimeoutHandler
    | AddCompletionHandler
    | StartAsync
    | IsAsyncStarted
    | IsAsyncComplete
    | Dispatch

  /** The adapter calls that start an async cycle: the optional timeout, both handlers, then suspension. */
  function StartTrace(timeout: Option<int>): seq<AdapterCall> {
    (if timeout.Some? then [AdapterCall.SetTimeout(timeout.value)] else [])
      + [AdapterCall.SetTimeoutHandler, AdapterCall.AddCompletionHandler, AdapterCall.StartAsync]
  }

  /** The adapter calls that hand a concurrent result back: ask whether the exchange is over, resume if not. */
  function DispatchTrace(complete: bool): seq<AdapterCall> {
    [AdapterCall.IsAsyncComplete] + (if complete then [] else [AdapterCall.Dispatch])
  }

  /** The host's async request/response exchange, recording every call the coordinator makes on it. */
  class AsyncWebRequest {
    var asyncStarted: bool
    /** What `isAsyncComplete` answers: whether the exchange already ended (timed out, closed). */
    var asyncComplete: bool
    var timeout: Option<int>
    var calls: seq<AdapterCall>

    constructor (complete: bool)
      ensures !asyncStarted && asyncComplete == complete && timeout.None? && calls == []
    {
      asyncStarted, asyncComplete, timeout, calls := false, complete, None, [];
    }

    method SetTimeout(millis: int)
      modifies this`timeout, this`calls
      ensures timeout == Some(millis) && calls == old(calls) + [AdapterCall.SetTimeout(millis)]
    {
      timeout := Some(millis);
      calls := calls + [AdapterCall.SetTimeout(millis)];
    }

    method SetTimeoutHandler()
      modifies this`calls
      ensures calls == old(calls) + [AdapterCall.SetTimeoutHandler]
    {
      calls := calls + [AdapterCall.SetTimeoutHandler];
    }

    method AddCompletionHandler()
      modifies this`calls
      ensures calls == old(calls) + [AdapterCall.AddCompletionHandler]
    {
      calls := calls + [AdapterCall.AddCompletionHandler];
    }

    method StartAsync()
      modifies this`asyncStarted, this`calls
      ensures asyncStarted && calls == old(calls) + [AdapterCall.StartAsync]
    {
      asyncStarted := true;
      calls := calls + [AdapterCall.StartAsync];
    }

    method IsAsyncStarted() returns (b: bool)
      modifies this`calls
      ensures b == asyncStarted && calls == old(calls) + [AdapterCall.IsAsyncStarted]
    {
      b := asyncStarted;
      calls := calls + [AdapterCall.IsAsyncStarted];
    }

    method IsAsyncComplete() returns (b: bool)
      modifies this`calls
      ensures b == asyncComplete && calls == old(calls) + [AdapterCall.IsAsyncComplete]
    {
      b := asyncComplete;
      calls := calls + [AdapterCall.IsAsyncComplete];
    }

    method Dispatch()
      modifies this`calls
      ensures calls == old(calls) + [AdapterCall.Dispatch]
    {
      calls := calls + [AdapterCall.Dispatch];
    }
  }

  /** The task an interceptor hook is called on. */
  datatype Work = CallableWork(callable: StubCallable) | DeferredWork(deferred: DeferredResult)

  /** Work submitted to a pooled executor that has not run yet, with the interceptors captured at submission. */
  datatype PendingTask = PendingTask(chain: seq<Registration>, callable: StubCallable)

  const NullAdapter := IllegalArgument("AsyncWebRequest must not be null")
  const AdapterMissing := IllegalState("AsyncWebRequest must not be null")
  const NullCallable := IllegalArgument("Callable must not be null")
  const NullDeferredResult := IllegalArgument("DeferredResult must not be null")

  /** The executor a new manager submits to. */
  const DefaultExecutor := PooledExecutor("SimpleAsyncTaskExecutor")

  /**
   * The concurrent result of running `c` under `chain`: a pre-process
   * exception, else the callable's value or exception after post-processing.
   */
  function CallableResult(chain: seq<Registration>, c: StubCallable): Obj {
    match Raised(chain, Pre)
    case Some(e) => ExcObj(e)
    case None => PostResult(chain, AsObject(Call(c)))
  }

  /** The interceptor hook calls made while running `c` under `chain`. */
  function CallableHookCalls(chain: seq<Registration>, c: StubCallable): seq<HookCall<Work>> {
    PreCalls(chain, CallableWork(c))
      + (if Raised(chain, Pre).Some? then [] else PostCalls(chain, CallableWork(c), AsObject(Call(c))))
  }

  class WebAsyncManager {
    var adapter: AsyncWebRequest?
    var taskExecutor: Executor
    var callableInterceptors: Registry
    var deferredInterceptors: Registry
    var concurrentResult: Option<Obj>
    /** Work handed to a pooled executor and not yet run. */
    var pending: seq<PendingTask>
    /** Every interceptor hook call made so far, in order. */
    var hookCalls: seq<HookCall<Work>>
    /** Every executor work was submitted to, in order. */
    var submissions: seq<Executor>

    ghost predicate Valid()
      reads this
    {
      callableInterceptors.Valid() && deferredInterceptors.Valid() &&
      (pending != [] ==> adapter != null)
    }

    constructor ()
      ensures Valid() && adapter == null && taskExecutor == DefaultExecutor
      ensures callableInterceptors == EmptyRegistry && deferredInterceptors == EmptyRegistry
      ensures concurrentResult.None? && pending == [] && hookCalls == [] && submissions == []
    {
      adapter := null;
      taskExecutor := DefaultExecutor;
      callableInterceptors, deferredInterceptors := EmptyRegistry, EmptyRegistry;
      concurrentResult := None;
      pending, hookCalls, submissions := [], [], [];
    }

    /** Whether a concurrent result (a value or an exception) has been recorded. */
    function HasConcurrentResult(): (r: bool)
      reads this
      ensures r <==> concurrentResult.Some?
    {
      concurrentResult.Some?
    }

    /** The recorded concurrent result; absent exactly when none has been recorded. */
    function GetConcurrentResult(): (r: Option<Obj>)
      reads this
      ensures r.Some? <==> HasConcurrentResult()
      ensures HasConcurrentResult() ==> r.value == concurrentResult.value
    {
      concurrentResult
    }

    method SetTaskExecutor(e: Executor)
      modifies this`taskExecutor
      ensures taskExecutor == e
    {
      taskExecutor := e;
    }

    /** Attaches the adapter and registers one completion handler on it; a null adapter is rejected. */
    method SetAsyncWebRequest(r: AsyncWebRequest?) returns (err: Option<Exc>)
      requires Valid()
      modifies this`adapter, r
      ensures Valid()
      ensures r == null ==> err == Some(NullAdapter) && adapter == old(adapter)
      ensures r != null ==> err.None? && adapter == r
      ensures r != null ==> r.calls == old(r.calls) + [AdapterCall.AddCompletionHandler]
      ensures r != null ==> r.asyncStarted == old(r.asyncStarted) && r.asyncComplete == old(r.asyncComplete)
      ensures r != null ==> r.timeout == old(r.timeout)
    {
      if r == null {
        return Some(NullAdapter);
      }
      adapter := r;
      r.AddCompletionHandler();
      err := None;
    }

    /** Whether the adapter reports that async processing started; always asks the adapter. */
    method IsConcurrentHandlingStarted() returns (b: bool)
      modifies adapter
      ensures adapter == null ==> !b
      ensures adapter != null ==> b == adapter.asyncStarted
      ensures adapter != null ==> adapter.calls == old(adapter.calls) + [AdapterCall.IsAsyncStarted]
      ensures adapter != null ==> adapter.asyncComplete == old(adapter.asyncComplete) && adapter.timeout == old(adapter.timeout)
      ensures adapter != null ==> adapter.asyncStarted == old(adapter.asyncStarted)
    {
      if adapter == null {
        return false;
      }
      b := adapter.IsAsyncStarted();
    }

    method RegisterCallableInterceptor(key: string, i: Interceptor)
      requires Valid()
      modifies this`callableInterceptors
      ensures Valid() && callableInterceptors == Put(old(callableInterceptors), key, i)
    {
      callableInterceptors := Put(callableInterceptors, key, i);
    }

    method RegisterDeferredResultInterceptor(key: string, i: Interceptor)
      requires Valid()
      modifies this`deferredInterceptors
      ensures Valid() && deferredInterceptors == Put(old(deferredInterceptors), key, i)
    {
      deferredInterceptors := Put(deferredInterceptors, key, i);
    }

    /** Records the result and resumes the exchange, at most once per cycle. */
    method SetConcurrentResultAndDispatch(result: Obj)
      requires adapter != null
      modifies this`concurrentResult, adapter`calls
      ensures concurrentResult == if old(concurrentResult).Some? then old(concurrentResult) else Some(result)
      ensures adapter.calls == old(adapter.calls) + (if old(concurrentResult).Some? then [] else DispatchTrace(adapter.asyncComplete))
    {
      if concurrentResult.Some? {
        return;
      }
      concurrentResult := Some(result);
      var complete := adapter.IsAsyncComplete();
      if !complete {
        adapter.Dispatch();
      }
    }

    /** What the submitted work does when it runs: pre-process, call, post-process, dispatch. */
    method RunCallable(chain: seq<Registration>, c: StubCallable)
      requires adapter != null
      modifies this`concurrentResult, this`hookCalls, adapter`calls
      ensures hookCalls == old(hookCalls) + CallableHookCalls(chain, c)
      ensures concurrentResult == if old(concurrentResult).Some? then old(concurrentResult) else Some(CallableResult(chain, c))
      ensures adapter.calls == old(adapter.calls) + (if old(concurrentResult).Some? then [] else DispatchTrace(adapter.asyncComplete))
    {
      var w := CallableWork(c);
      var pre, fault := ApplyPreProcess(chain, w);
      hookCalls := hookCalls + pre;
      var result: Obj;
      match fault {
        case Some(e) =>
          result := ExcObj(e);
        case None =>
          var post;
          post, result := ApplyPostProcess(chain, w, AsObject(Call(c)));
          hookCalls := hookCalls + post;
      }
      SetConcurrentResultAndDispatch(result);
    }

    /** Announces the timeout, registers both handlers, clears the previous result and suspends the exchange. */
    method BeginCycle(timeout: Option<int>)
      requires adapter != null
      modifies this`concurrentResult, adapter`timeout, adapter`calls, adapter`asyncStarted
      ensures concurrentResult.None? && adapter.asyncStarted
      ensures adapter.timeout == if timeout.Some? then timeout else old(adapter.timeout)
      ensures adapter.calls == old(adapter.calls) + StartTrace(timeout)
    {
      if timeout.Some? {
        adapter.SetTimeout(timeout.value);
      }
      adapter.SetTimeoutHandler();
      adapter.AddCompletionHandler();
      concurrentResult := None;
      adapter.StartAsync();
    }

    /**
     * Starts async processing of `task`: timeout, handlers, suspension, then
     * submission. The synchronous executor runs the work at once; a pooled
     * one keeps it pending.
     */
    method StartTaskProcessing(task: AsyncTask) returns (err: Option<Exc>)
      requires Valid()
      modifies this`concurrentResult, this`hookCalls, this`pending, this`submissions, adapter
      ensures Valid()
      ensures adapter == null ==> err == Some(AdapterMissing) && unchanged(this)
      ensures adapter != null ==> err.None? && adapter.asyncStarted && adapter.asyncComplete == old(adapter.asyncComplete)
      ensures adapter != null ==> adapter.timeout == if task.timeout.Some? then task.timeout else old(adapter.timeout)
      ensures adapter != null ==>
        var exec := task.executor.GetOr(taskExecutor);
        var chain := callableInterceptors.Chain();
        && submissions == old(submissions) + [exec]
        && adapter.calls == old(adapter.calls) + StartTrace(task.timeout)
                              + (if exec == SyncExecutor then DispatchTrace(adapter.asyncComplete) else [])
        && (exec == SyncExecutor ==>
              concurrentResult == Some(CallableResult(chain, task.callable))
              && hookCalls == old(hookCalls) + CallableHookCalls(chain, task.callable)
              && pending == old(pending))
        && (exec != SyncExecutor ==>
              concurrentResult.None? && hookCalls == old(hookCalls)
              && pending == old(pending) + [PendingTask(chain, task.callable)])
    {
      if adapter == null {
        return Some(AdapterMissing);
      }
      BeginCycle(task.timeout);
      var exec := task.executor.GetOr(taskExecutor);
      submissions := submissions + [exec];
      var chain := callableInterceptors.Chain();
      if exec == SyncExecutor {
        RunCallable(chain, task.callable);
      } else {
        pending := pending + [PendingTask(chain, task.callable)];
      }
      err := None;
    }

    /** The Callable entry point: a null callable is rejected before anything else happens. */
    method StartCallableProcessing(callable: Option<StubCallable>) returns (err: Option<Exc>)
      requires Valid()
      modifies this`concurrentResult, this`hookCalls, this`pending, this`submissions, adapter
      ensures Valid()
      ensures callable.None? ==> err == Some(NullCallable) && unchanged(this) && (adapter != null ==> unchanged(adapter))
      ensures callable.Some? && adapter == null ==> err == Some(AdapterMissing) && unchanged(this)
      ensures callable.Some? && adapter != null ==> err.None? && adapter.asyncStarted
      ensures callable.Some? && adapter != null ==> adapter.asyncComplete == old(adapter.asyncComplete) && adapter.timeout == old(adapter.timeout)
      ensures callable.Some? && adapter != null ==>
        var chain := callableInterceptors.Chain();
        && submissions == old(submissions) + [taskExecutor]
        && adapter.calls == old(adapter.calls) + StartTrace(None)
                              + (if taskExecutor == SyncExecutor then DispatchTrace(adapter.asyncComplete) else [])
        && (taskExecutor == SyncExecutor ==>
              concurrentResult == Some(CallableResult(chain, callable.value))
              && hookCalls == old(hookCalls) + CallableHookCalls(chain, callable.value)
              && pending == old(pending))
        && (taskExecutor != SyncExecutor ==>
              concurrentResult.None? && hookCalls == old(hookCalls)
              && pending == old(pending) + [PendingTask(chain, callable.value)])
    {
      if callable.None? {
        return Some(NullCallable);
      }
      err := StartTaskProcessing(AsyncTask(None, None, callable.value));
    }

    /** A pooled executor runs the `k`-th pending piece of work. */
    method RunSubmittedTask(k: nat)
      requires Valid() && k < |pending|
      modifies this`concurrentResult, this`hookCalls, this`pending, adapter`calls
      ensures Valid()
      ensures pending == old(pending[..k] + pending[k + 1..])
      ensures hookCalls == old(hookCalls) + CallableHookCalls(old(pending[k]).chain, old(pending[k]).callable)
      ensures concurrentResult ==
        if old(concurrentResult).Some? then old(concurrentResult)
        else Some(CallableResult(old(pending[k]).chain, old(pending[k]).callable))
      ensures adapter.calls == old(adapter.calls) + (if old(concurrentResult).Some? then [] else DispatchTrace(adapter.asyncComplete))
    {
      var t := pending[k];
      pending := pending[..k] + pending[k + 1..];
      RunCallable(t.chain, t.callable);
    }

    /** What the result handler installed on a deferred result does with the value it is given. */
    method HandleDeferredResult(d: DeferredResult, chain: seq<Registration>, v: Obj)
      requires adapter != null
      modifies this`concurrentResult, this`hookCalls, adapter`calls
      ensures hookCalls == old(hookCalls) + PostCalls(chain, DeferredWork(d), v)
      ensures concurrentResult == if old(concurrentResult).Some? then old(concurrentResult) else Some(PostResult(chain, v))
      ensures adapter.calls == old(adapter.calls) + (if old(concurrentResult).Some? then [] else DispatchTrace(adapter.asyncComplete))
    {
      var post, result := ApplyPostProcess(chain, DeferredWork(d), v);
      hookCalls := hookCalls + post;
      SetConcurrentResultAndDispatch(result);
    }

    /** The deferred path once both checks passed. */
    method DeferredCycle(d: DeferredResult)
      requires Valid() && adapter != null
      modifies this`concurrentResult, this`hookCalls, adapter`timeout, adapter`calls, adapter`asyncStarted, d`handler, d`handlerChain
      ensures adapter.asyncStarted
      ensures adapter.timeout == if d.timeout.Some? then d.timeout else old(adapter.timeout)
      ensures
        var chain := deferredInterceptors.Chain();
        var w := DeferredWork(d);
        var fault := Raised(chain, Pre);
        var settled := d.result;
        && (fault.Some? ==>
              d.handler == old(d.handler) && d.handlerChain == old(d.handlerChain)
              && concurrentResult == Some(ExcObj(fault.value))
              && hookCalls == old(hookCalls) + PreCalls(chain, w)
              && adapter.calls == old(adapter.calls) + StartTrace(d.timeout) + DispatchTrace(adapter.asyncComplete))
        && (fault.None? ==>
              d.handler == this && d.handlerChain == chain
              && concurrentResult == (if settled.Some? then Some(PostResult(chain, settled.value)) else None)
              && hookCalls == old(hookCalls) + PreCalls(chain, w)
                                + (if settled.Some? then PostCalls(chain, w, settled.value) else [])
              && adapter.calls == old(adapter.calls) + StartTrace(d.timeout)
                                + (if settled.Some? then DispatchTrace(adapter.asyncComplete) else []))
    {
      BeginCycle(d.timeout);
      var chain := deferredInterceptors.Chain();
      var pre, fault := ApplyPreProcess(chain, DeferredWork(d));
      hookCalls := hookCalls + pre;
      match fault {
        case Some(e) =>
          SetConcurrentResultAndDispatch(ExcObj(e));
        case None =>
          d.handler, d.handlerChain := this, chain;
          if d.result.Some? {
            HandleDeferredResult(d, chain, d.result.value);
          }
      }
    }

    /**
     * Starts async processing of a deferred result: timeout, handlers,
     * suspension and pre-processing; then either dispatches a pre-process
     * exception or installs the result handler (and runs it at once when the
     * result is already there).
     */
    method StartDeferredResultProcessing(d: DeferredResult?) returns (err: Option<Exc>)
      requires Valid()
      modifies this`concurrentResult, this`hookCalls, adapter, d
      ensures Valid()
      ensures d == null ==> err == Some(NullDeferredResult) && unchanged(this) && (adapter != null ==> unchanged(adapter))
      ensures d != null && adapter == null ==> err == Some(AdapterMissing) && unchanged(this) && unchanged(d)
      ensures d != null && adapter != null ==> err.None? && adapter.asyncStarted && adapter.asyncComplete == old(adapter.asyncComplete)
      ensures d != null && adapter != null ==> adapter.timeout == if d.timeout.Some? then d.timeout else old(adapter.timeout)
      ensures d != null && adapter != null ==>
        var chain := deferredInterceptors.Chain();
        var w := DeferredWork(d);
        var fault := Raised(chain, Pre);
        var settled := d.result;
        && d.result == old(d.result)
        && (fault.Some? ==>
              d.handler == old(d.handler) && d.handlerChain == old(d.handlerChain)
              && concurrentResult == Some(ExcObj(fault.value))
              && hookCalls == old(hookCalls) + PreCalls(chain, w)
              && adapter.calls == old(adapter.calls) + StartTrace(d.timeout) + DispatchTrace(adapter.asyncComplete))
        && (fault.None? ==>
              d.handler == this && d.handlerChain == chain
              && concurrentResult == (if settled.Some? then Some(PostResult(chain, settled.value)) else None)
              && hookCalls == old(hookCalls) + PreCalls(chain, w)
                                + (if settled.Some? then PostCalls(chain, w, settled.value) else [])
              && adapter.calls == old(adapter.calls) + StartTrace(d.timeout)
                                + (if settled.Some? then DispatchTrace(adapter.asyncComplete) else []))
    {
      if d == null {
        return Some(NullDeferredResult);
      }
      if adapter == null {
        return Some(AdapterMissing);
      }
      DeferredCycle(d);
      err := None;
    }
  }

  /** A result holder settable once, by any producer; settling it drives the installed result handler. */
  class DeferredResult {
    const timeout: Option<int>
    var result: Option<Obj>
    /** The manager whose result handler is installed, with the interceptors it captured. */
    var handler: WebAsyncManager?
    var handlerChain: seq<Registration>

    constructor (timeout: Option<int>)
      ensures this.timeout == timeout && result.None? && handler == null && handlerChain == []
    {
      this.timeout := timeout;
      result, handler, handlerChain := None, null, [];
    }

    /** Settles the result; only the first call is accepted, and it runs the installed handler if any. */
    method SetResult(v: Obj) returns (accepted: bool)
      requires handler != null ==> handler.adapter != null
      modifies this`result, handler, if handler == null then null else handler.adapter
      ensures accepted == old(result).None?
      ensures result == if accepted then Some(v) else old(result)
      ensures !accepted && handler != null ==> unchanged(handler) && unchanged(handler.adapter)
      ensures handler != null ==>
        && handler.adapter == old(handler.adapter)
        && handler.adapter.asyncComplete == old(handler.adapter.asyncComplete)
        && handler.adapter.asyncStarted == old(handler.adapter.asyncStarted)
        && handler.Valid() == old(handler.Valid())
        && handler.adapter.timeout == old(handler.adapter.timeout)
        && handler.pending == old(handler.pending)
        && handler.submissions == old(handler.submissions)
        && handler.callableInterceptors == old(handler.callableInterceptors)
        && handler.deferredInterceptors == old(handler.deferredInterceptors)
        && handler.taskExecutor == old(handler.taskExecutor)
      ensures accepted && handler != null ==>
        && handler.hookCalls == old(handler.hookCalls) + PostCalls(handlerChain, DeferredWork(this), v)
        && handler.concurrentResult ==
             (if old(handler.concurrentResult).Some? then old(handler.concurrentResult) else Some(PostResult(handlerChain, v)))
        && handler.adapter.calls == old(handler.adapter.calls)
             + (if old(handler.concurrentResult).Some? then [] else DispatchTrace(handler.adapter.asyncComplete))
    {
      if result.Some? {
        return false;
      }
      result := Some(v);
      if handler != null {
        handler.HandleDeferredResult(this, handlerChain, v);
      }
      accepted := true;
    }
  }
}
