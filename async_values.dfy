/**
 * Values exchanged by the async request coordinator: exceptions, the Java
 * objects a unit of work may return, the stub work unit of the tests and the
 * task descriptor.
 */
module AsyncValues {
  import opened Wrappers

  /** An exception instance. Application exceptions are told apart by `id`. */
  datatype Exc =
    | IllegalArgument(message: string)
    | IllegalState(message: string)
    | AppException(id: nat)

  /** A Java object as the coordinator sees it: a plain value or an exception instance. */
  datatype Obj = IntObj(n: int) | StrObj(s: string) | ExcObj(e: Exc)

  /** What running a unit of work gives: a returned value or a thrown exception. */
  datatype Outcome = Value(v: Obj) | Failure(e: Exc)

  /** The object the coordinator stores for an outcome: a thrown exception is stored as itself. */
  function AsObject(o: Outcome): Obj {
    match o
    case Value(v) => v
    case Failure(e) => ExcObj(e)
  }

  /** The tests' work unit: it throws its value when that value is an exception, else returns it. */
  datatype StubCallable = StubCallable(value: Obj)

  function Call(c: StubCallable): (r: Outcome)
    ensures r.Failure? <==> c.value.ExcObj?
    ensures r.Value? ==> !r.v.ExcObj?
    ensures AsObject(r) == c.value
  {
    if c.value.ExcObj? then Failure(c.value.e) else Value(c.value)
  }

  /** Where submitted work runs: inline on the caller's thread, or on a named pool. */
  datatype Executor = SyncExecutor | PooledExecutor(name: string)

  /** A unit of work with an optional timeout (milliseconds) and an optional executor override. */
  datatype AsyncTask = AsyncTask(timeout: Option<int>, executor: Option<Executor>, callable: StubCallable)
}
