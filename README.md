# Async request coordination and property resolution, modelled in Dafny

This project models two pieces of the Spring Framework.

**WebAsyncManager**, the coordinator for asynchronous web requests. A handler hands it a unit of
work: a `Callable` wrapped in an `AsyncTask`, or a `DeferredResult` that other code settles later.
The manager then:
- tells the host's `AsyncWebRequest` adapter about the timeout;
- registers a timeout handler and a completion handler;
- suspends the exchange (`startAsync`);
- runs the registered interceptors' `preProcess` hooks, then the work, then the `postProcess` hooks;
- records the outcome as the *concurrent result*;
- resumes the exchange (`dispatch`) once, unless the exchange already completed.

The manager's own source is not part of this model. Its behaviour is taken from
`WebAsyncManagerTests.java`. In those tests the adapter and the interceptors are strict mocks, so
the exact order of the calls made on them is what the tests check. The executor is synchronous, so
one async cycle is one sequential run. The model follows the tests:
- `AsyncWebRequest` is a class that records every call made on it (`calls`).
- An `Interceptor` is described by whether its `preProcess` and `postProcess` hooks throw.
- The manager records every hook call (`hookCalls`) and every executor it submitted to (`submissions`).
- `SyncExecutor` runs the work inline. Work for a pooled executor stays pending until
  `RunSubmittedTask` runs it.
- `DeferredResult` is a class that can be settled once. Settling it runs the result handler that
  the manager installed.

In the model, `preProcess` runs after `startAsync`: the tests expect `startAsync` even when
`preProcess` throws. A `preProcess` exception becomes the result, the work does not run, and no
`postProcess` hook is called. `postProcess` hooks run in registration order, each with the
work's product; the first one that throws replaces the result and stops the chain. Starting a
cycle clears the previous concurrent result. Recording a result is guarded so it happens at most
once per cycle. A deferred result settled before pre-processing finished is handled as soon as
pre-processing succeeds.

**AbstractPropertyResolver**, the base of Spring's property resolvers. The abstract
`getProperty(key)` is the map `properties`; a key missing from the map looks up null. On top of
it the model provides:
- defaulting and strict lookups, each with its typed overload;
- the insertion-ordered set of required keys, and its validation;
- the lenient and strict placeholder helpers, each created once, on first use;
- the choice between those two helpers for nested placeholders.

Files:
- `wrappers.dfy`: `Option` and `Result`.
- `async_values.dfy`: exceptions, objects, outcomes, the stub callable and the task descriptor.
- `interceptors.dfy`: the interceptor registry and the pre-/post-process chains.
- `web_async.dfy`: the adapter, the manager and the deferred result.
- `web_async_properties.dfy`: all-inputs lemmas about one cycle.
- `web_async_scenarios.dfy`: one method per test case.
- `property_resolver.dfy`: the property resolver.

## Model

| member | source | states |
|---|---|---|
| AsyncValues.Call | spring-web/src/test/java/org/springframework/web/context/request/async/WebAsyncManagerTests.java:331-336 | the stub throws exactly when its value is an exception, never returns an exception as a value, and the object recorded for its outcome is its value either way |
| Interceptors.Put | spring-web/src/test/java/org/springframework/web/context/request/async/WebAsyncManagerTests.java:127 | registering keeps the registry a duplicate-free ordered map: a new key goes last, a known key keeps its place with the new interceptor, earlier keys are untouched |
| Interceptors.PutKeepsOtherRegistrations | spring-web/src/test/java/org/springframework/web/context/request/async/WebAsyncManagerTests.java:248 | registering one key leaves every other registration where and what it was, and the new registration is in the chain |
| Interceptors.FirstFault | spring-web/src/test/java/org/springframework/web/context/request/async/WebAsyncManagerTests.java:164-166 | the index found is the first interceptor whose hook throws; none is found exactly when no hook throws |
| Interceptors.ApplyPreProcess | spring-web/src/test/java/org/springframework/web/context/request/async/WebAsyncManagerTests.java:158-178 | pre-process hooks are called in registration order up to and including the first that throws, whose exception is returned |
| Interceptors.ApplyPostProcess | spring-web/src/test/java/org/springframework/web/context/request/async/WebAsyncManagerTests.java:180-201 | post-process hooks are called in registration order with the captured result; the first exception replaces the result and stops the chain |
| WebAsync.WebAsyncManager.constructor | spring-web/src/test/java/org/springframework/web/context/request/async/WebAsyncManagerTests.java:70 | a new manager has no adapter, no interceptors, no result and the default pooled executor |
| WebAsync.WebAsyncManager.HasConcurrentResult | spring-web/src/test/java/org/springframework/web/context/request/async/WebAsyncManagerTests.java:130 | true exactly when a concurrent result, a value or an exception, has been recorded |
| WebAsync.WebAsyncManager.GetConcurrentResult | spring-web/src/test/java/org/springframework/web/context/request/async/WebAsyncManagerTests.java:131 | the recorded concurrent result, present exactly when HasConcurrentResult holds |
| WebAsync.WebAsyncManager.SetTaskExecutor | spring-web/src/test/java/org/springframework/web/context/request/async/WebAsyncManagerTests.java:56 | the executor used for later submissions is the one given |
| WebAsync.WebAsyncManager.SetAsyncWebRequest | spring-web/src/test/java/org/springframework/web/context/request/async/WebAsyncManagerTests.java:53-66 | attaching an adapter registers exactly one completion handler on it and nothing else; a null adapter is rejected with IllegalArgument "AsyncWebRequest must not be null" |
| WebAsync.WebAsyncManager.IsConcurrentHandlingStarted | spring-web/src/test/java/org/springframework/web/context/request/async/WebAsyncManagerTests.java:89-106 | the answer is the adapter's isAsyncStarted, asked once per query |
| WebAsync.WebAsyncManager.RegisterCallableInterceptor | spring-web/src/test/java/org/springframework/web/context/request/async/WebAsyncManagerTests.java:127 | the callable registry becomes the old one with the key registered |
| WebAsync.WebAsyncManager.RegisterDeferredResultInterceptor | spring-web/src/test/java/org/springframework/web/context/request/async/WebAsyncManagerTests.java:248 | the deferred-result registry becomes the old one with the key registered |
| WebAsync.WebAsyncManager.SetConcurrentResultAndDispatch | spring-web/src/test/java/org/springframework/web/context/request/async/WebAsyncManagerTests.java:317-318 | the result is recorded only if none is recorded yet; then isAsyncComplete is asked and dispatch follows only when it answered false |
| WebAsync.WebAsyncManager.RunCallable | spring-web/src/test/java/org/springframework/web/context/request/async/WebAsyncManagerTests.java:128-131 | running submitted work makes the hook calls of a cycle and records the cycle's result, with one isAsyncComplete/dispatch |
| WebAsync.WebAsyncManager.BeginCycle | spring-web/src/test/java/org/springframework/web/context/request/async/WebAsyncManagerTests.java:313-316 | the adapter receives the timeout (if any), a timeout handler, a completion handler and startAsync, in that order; the previous result is cleared |
| WebAsync.WebAsyncManager.StartTaskProcessing | spring-web/src/test/java/org/springframework/web/context/request/async/WebAsyncManagerTests.java:203-221 | no adapter gives IllegalState with nothing changed; otherwise the exact adapter trace, one submission to the task's executor (else the manager's), and with the synchronous executor the cycle's result and hook calls, with a pooled one a pending task and no dispatch |
| WebAsync.WebAsyncManager.StartCallableProcessing | spring-web/src/test/java/org/springframework/web/context/request/async/WebAsyncManagerTests.java:114-134 | a null callable is rejected with IllegalArgument "Callable must not be null" before any state change; otherwise as a task without timeout or executor |
| WebAsync.WebAsyncManager.RunSubmittedTask | spring-web/src/test/java/org/springframework/web/context/request/async/WebAsyncManagerTests.java:340-346 | an executor running a pending task removes it, records its result at most once and dispatches at most once |
| WebAsync.WebAsyncManager.HandleDeferredResult | spring-web/src/test/java/org/springframework/web/context/request/async/WebAsyncManagerTests.java:251-253 | a settled value is post-processed and becomes the result (or the post-process exception does), dispatched at most once |
| WebAsync.WebAsyncManager.DeferredCycle | spring-web/src/test/java/org/springframework/web/context/request/async/WebAsyncManagerTests.java:257-277 | after suspension and pre-processing: a pre-process exception is dispatched at once and no handler is installed; otherwise the handler is installed and an already settled value is handled immediately |
| WebAsync.WebAsyncManager.StartDeferredResultProcessing | spring-web/src/test/java/org/springframework/web/context/request/async/WebAsyncManagerTests.java:234-255 | a null deferred result is rejected with IllegalArgument "DeferredResult must not be null", a missing adapter with IllegalState, both before any state change; otherwise as DeferredCycle |
| WebAsync.DeferredResult.constructor | spring-web/src/test/java/org/springframework/web/context/request/async/WebAsyncManagerTests.java:237 | a new deferred result carries its timeout, no value and no handler |
| WebAsync.DeferredResult.SetResult | spring-web/src/test/java/org/springframework/web/context/request/async/WebAsyncManagerTests.java:251 | only the first settlement is accepted; if a handler is installed it post-processes the value and records and dispatches the result at most once, and the manager's pending work, submissions, registries and executor and the adapter's timeout and flags stay as they were |
| WebAsyncProperties.CycleTraceShape | spring-web/src/test/java/org/springframework/web/context/request/async/WebAsyncManagerTests.java:313-320 | in a cycle's adapter trace a timeout comes first, before the timeout handler; there is one completion handler and one startAsync; dispatch occurs once, last, right after isAsyncComplete, and never when the exchange is complete |
| WebAsyncProperties.PreProcessPrecedesPostProcess | spring-web/src/test/java/org/springframework/web/context/request/async/WebAsyncManagerTests.java:120-123 | in every callable cycle all pre-process calls come before all post-process calls |
| WebAsyncProperties.DeferredPreProcessPrecedesPostProcess | spring-web/src/test/java/org/springframework/web/context/request/async/WebAsyncManagerTests.java:240-243 | on the deferred path too, all pre-process calls come before all post-process calls |
| WebAsyncProperties.WorkOutcomeBecomesResult | spring-web/src/test/java/org/springframework/web/context/request/async/WebAsyncManagerTests.java:136-156 | with no interceptor failing, the result is the callable's value whether returned or thrown, and each interceptor sees preProcess then postProcess with that value |
| WebAsyncProperties.PreProcessFailureWins | spring-web/src/test/java/org/springframework/web/context/request/async/WebAsyncManagerTests.java:158-178 | a pre-process exception is the result, no post-process hook is called and the failing interceptor's call is the last |
| WebAsyncProperties.PostProcessFailureReplacesResult | spring-web/src/test/java/org/springframework/web/context/request/async/WebAsyncManagerTests.java:180-201 | after a successful pre-process, the first post-process exception replaces the work's product, which every post-process call received |
| WebAsyncScenarios.SetUp | spring-web/src/test/java/org/springframework/web/context/request/async/WebAsyncManagerTests.java:53-66 | the fixture's adapter has exactly one completion handler registered and the manager uses the synchronous executor |
| WebAsyncScenarios.StartWithoutAsyncWebRequest | spring-web/src/test/java/org/springframework/web/context/request/async/WebAsyncManagerTests.java:68-87 | with no adapter, both entry points fail with IllegalState "AsyncWebRequest must not be null" |
| WebAsyncScenarios.ConcurrentHandlingStarted | spring-web/src/test/java/org/springframework/web/context/request/async/WebAsyncManagerTests.java:89-106 | the manager answers false, then true after the adapter started, asking the adapter each time |
| WebAsyncScenarios.SetNullAsyncWebRequest | spring-web/src/test/java/org/springframework/web/context/request/async/WebAsyncManagerTests.java:108-112 | attaching null after async started is rejected with IllegalArgument |
| WebAsyncScenarios.StartCallable | spring-web/src/test/java/org/springframework/web/context/request/async/WebAsyncManagerTests.java:114-156 | for any value (21, or an exception) the result is that value, hooks are preProcess then postProcess with it, and the trace is SetTimeoutHandler, AddCompletionHandler, StartAsync, IsAsyncComplete, Dispatch |
| WebAsyncScenarios.StartCallablePreProcessException | spring-web/src/test/java/org/springframework/web/context/request/async/WebAsyncManagerTests.java:158-178 | a throwing preProcess gives that exception as result, no postProcess, one dispatch |
| WebAsyncScenarios.StartCallablePostProcessException | spring-web/src/test/java/org/springframework/web/context/request/async/WebAsyncManagerTests.java:180-201 | a throwing postProcess replaces the value with its exception, one dispatch |
| WebAsyncScenarios.StartCallableWithAsyncTask | spring-web/src/test/java/org/springframework/web/context/request/async/WebAsyncManagerTests.java:203-221 | a task with timeout 1000 and its own executor: SetTimeout first, one submission to that executor, no dispatch, no result yet |
| WebAsyncScenarios.SubmittedTaskRunsLater | spring-web/src/test/java/org/springframework/web/context/request/async/WebAsyncManagerTests.java:340-346 | when the executor runs the submitted work, its value becomes the result and isAsyncComplete/dispatch follow |
| WebAsyncScenarios.StartCallableNullInput | spring-web/src/test/java/org/springframework/web/context/request/async/WebAsyncManagerTests.java:223-232 | a null callable gives IllegalArgument "Callable must not be null" and no adapter call |
| WebAsyncScenarios.StartDeferredResult | spring-web/src/test/java/org/springframework/web/context/request/async/WebAsyncManagerTests.java:234-255 | a deferred result with timeout settled with "abc" after the start gives "abc", SetTimeout first and one dispatch |
| WebAsyncScenarios.StartDeferredResultPreProcessException | spring-web/src/test/java/org/springframework/web/context/request/async/WebAsyncManagerTests.java:257-277 | a throwing preProcess is the result and is dispatched once; settling with 25 afterwards changes nothing |
| WebAsyncScenarios.StartDeferredResultPostProcessException | spring-web/src/test/java/org/springframework/web/context/request/async/WebAsyncManagerTests.java:279-300 | a throwing postProcess replaces the settled 25 with its exception |
| WebAsyncScenarios.StartDeferredResultNullInput | spring-web/src/test/java/org/springframework/web/context/request/async/WebAsyncManagerTests.java:302-311 | a null deferred result gives IllegalArgument "DeferredResult must not be null" and no adapter call |
| PropertyResolution.GetProperty | spring-core/src/main/java/org/springframework/core/env/AbstractPropertyResolver.java:66-70 | the looked-up value when there is one, the default exactly when the lookup is null |
| PropertyResolution.GetTypedProperty | spring-core/src/main/java/org/springframework/core/env/AbstractPropertyResolver.java:72-76 | the same for the typed lookup |
| PropertyResolution.GetRequiredProperty | spring-core/src/main/java/org/springframework/core/env/AbstractPropertyResolver.java:98-105 | succeeds exactly when the key looks up a value, with that value; otherwise IllegalState "required key [key] not found" |
| PropertyResolution.GetRequiredTypedProperty | spring-core/src/main/java/org/springframework/core/env/AbstractPropertyResolver.java:107-114 | the same for the typed lookup |
| PropertyResolution.StrictAgreesWithDefaulting | spring-core/src/main/java/org/springframework/core/env/AbstractPropertyResolver.java:66-105 | the strict lookup's value is what the defaulting lookup returns for every default; when the strict lookup fails, the defaulting one returns its default |
| PropertyResolution.Insert | spring-core/src/main/java/org/springframework/core/env/AbstractPropertyResolver.java:81 | adding a key to an insertion-ordered set keeps it duplicate-free, keeps the old elements first, and adds exactly that key |
| PropertyResolution.AddRequiredContents | spring-core/src/main/java/org/springframework/core/env/AbstractPropertyResolver.java:78-83 | adding keys keeps the required set duplicate-free with the old keys first, and its elements are the old keys plus the new ones |
| PropertyResolution.AddRequiredKeepsInsertionOrder | spring-core/src/main/java/org/springframework/core/env/AbstractPropertyResolver.java:54 | the set after any prefix of the keys is a prefix of the set after all of them, so keys stay in insertion order |
| PropertyResolution.MissingExactly | spring-core/src/main/java/org/springframework/core/env/AbstractPropertyResolver.java:86-92 | the missing list holds exactly the required keys that look up null, each once |
| PropertyResolution.PropertyResolver.constructor | spring-core/src/main/java/org/springframework/core/env/AbstractPropertyResolver.java:48-54 | defaults: prefix "${", suffix "}", separator ":", nested placeholders strict, no required keys, no helpers |
| PropertyResolution.PropertyResolver.SetRequiredProperties | spring-core/src/main/java/org/springframework/core/env/AbstractPropertyResolver.java:78-83 | the required set becomes the old set with the keys added in order, duplicates ignored |
| PropertyResolution.PropertyResolver.ValidateRequiredProperties | spring-core/src/main/java/org/springframework/core/env/AbstractPropertyResolver.java:85-96 | fails exactly when some required key looks up null, listing exactly those keys in required-set order; changes nothing |
| PropertyResolution.PropertyResolver.SetPlaceholderPrefix | spring-core/src/main/java/org/springframework/core/env/AbstractPropertyResolver.java:120-123 | the prefix becomes the given one |
| PropertyResolution.PropertyResolver.SetPlaceholderSuffix | spring-core/src/main/java/org/springframework/core/env/AbstractPropertyResolver.java:129-132 | the suffix becomes the given one |
| PropertyResolution.PropertyResolver.SetValueSeparator | spring-core/src/main/java/org/springframework/core/env/AbstractPropertyResolver.java:138-141 | the separator becomes the given one |
| PropertyResolution.PropertyResolver.SetIgnoreUnresolvableNestedPlaceholders | spring-core/src/main/java/org/springframework/core/env/AbstractPropertyResolver.java:164-167 | the nested-placeholder flag becomes the given one |
| PropertyResolution.PropertyResolver.CreatePlaceholderHelper | spring-core/src/main/java/org/springframework/core/env/AbstractPropertyResolver.java:182-185 | a new helper carries the resolver's current prefix, suffix and separator and the requested leniency |
| PropertyResolution.PropertyResolver.ResolvePlaceholders | spring-core/src/main/java/org/springframework/core/env/AbstractPropertyResolver.java:143-149 | the lenient helper is created from the current settings only if absent and is kept; the text is resolved with it |
| PropertyResolution.PropertyResolver.ResolveRequiredPlaceholders | spring-core/src/main/java/org/springframework/core/env/AbstractPropertyResolver.java:151-157 | the strict helper is created from the current settings only if absent and is kept; the text is resolved with it |
| PropertyResolution.PropertyResolver.ResolveNestedPlaceholders | spring-core/src/main/java/org/springframework/core/env/AbstractPropertyResolver.java:176-180 | the lenient path when the flag is set, the strict path otherwise, leaving the other helper untouched |
| PropertyResolution.ValidateTwice | spring-core/src/main/java/org/springframework/core/env/AbstractPropertyResolver.java:85-96 | two validations in a row give the same outcome |
| PropertyResolution.HelpersCapturedOnFirstUse | spring-core/src/main/java/org/springframework/core/env/AbstractPropertyResolver.java:182-185 | a helper keeps the prefix, suffix and separator of its creation: a later prefix change does not reach it, but a helper created afterwards has the new prefix |
| PropertyResolution.NestedDefaultsToStrict | spring-core/src/main/java/org/springframework/core/env/AbstractPropertyResolver.java:159-180 | with the flag at its default, nested values are resolved by a strict helper with the default syntax |

## Left out

- Real concurrency is not modelled: thread pools, the adapter's timer and the race between a timeout and completion. Executors are synchronous, or leave work pending until `RunSubmittedTask`.
- Timeout and completion handlers appear only as adapter calls and never fire. So interceptor timeout hooks, the default timeout failure, clearing state on completion and deferred-result expiry are not modelled.
- WebAsync.WebAsyncManager.SetAsyncWebRequest: does not check that a previously attached adapter has not started async processing. The tests do not exercise that check.
- WebAsync.WebAsyncManager.StartTaskProcessing: does not model a null task descriptor, because a task here is a value that cannot be null.
- Interceptors.ApplyPostProcess: uses registration order for several interceptors. The tests register one interceptor, so they do not fix the order.
- WebAsync.DeferredResult.SetResult: `setErrorResult` is not modelled separately. An error settlement is `SetResult` with an exception object.
- Interceptor hooks on async start, timeout and error are not modelled. No test exercises them.
- The request passed to each hook is not recorded in `hookCalls`. It is always the attached adapter.
- Null checks on interceptor keys and interceptors are not modelled. Keys and interceptors here are values.
- Null required-property keys are not modelled; keys here are strings. The source adds them to the set without a check.
- The conversion service (`getConversionService`, `setConversionService`) and typed conversion are left out. Typed lookups take a lookup function `string -> Option<T>`.
- Logging is left out.
- `PropertyPlaceholderHelper.replacePlaceholders` is not part of this model. It is the resolver's `replacer` parameter: a function of the helper configuration, the text and the property source.
- `TimedSpringRunnerTests.java` is not part of this model. It is wall-clock test-runner infrastructure.
- `MockMvcWebConnectionTests.java` is not part of this model. It tests a browser-emulation connection whose source is not part of this model.
- `ChannelResolutionException.java` is not part of this model. Its two constructors only delegate to the superclass.
