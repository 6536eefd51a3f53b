# store-saga: the saga runner and its helpers, in Dafny

store-saga runs "sagas" beside an @ngrx/store application. A saga is a function
from the stream of `{state, action}` iterations to a stream of actions. A saga
definition is an Angular `Provider` that `createSaga` builds around a fresh
`OpaqueToken`. The `SagaRunner` keeps two tables:

- the resolved instance of each definition (`_resolvedSagas`);
- the live subscription of each connected instance (`_runningSagas`).

Its operations work on these tables:

- `run` resolves a definition through the injector once, then connects the
  instance. It throws "already running" if the instance is connected.
- `pause` disconnects the instance and keeps it cached.
- `stop` pauses the definition, then evicts the cached instance, so the next
  `run` resolves it again.

A runner built with a parent owns no tables and forwards every call to that
parent. `runSagasOnBootstrap` registers an app initializer that runs a list of
definitions in order. `whenAction`, `toPayload` and `all` are the small filters
and projections that saga authors apply to the iteration stream.

The project has six modules:

- `Wrappers` (wrappers.dfy): `Option`, `Result` and `Outcome`. A thrown `Error`
  becomes `Fail(e)`. `Lifecycle.Message` gives each error's exact text.
- `Interfaces` (interfaces.dfy):
  - the action and the iteration record;
  - the factory, reduced to its parameter count;
  - `OpaqueToken` and `Provider` as classes, so that a new token is a new object;
  - the resolved instance `Saga(definition, serial)`;
  - the subscription handle.
- `Lifecycle` (lifecycle.dfy): the two tables as a value `Registry`. `Run`,
  `Pause`, `Stop` and `RunAll` are functions on it. The invariant `Consistent`
  and every property of the runner are proved about these functions.
- `Runner` (runner.dfy): the `SagaRunner` class. It has the two tables as
  `Option<map>` fields, allocated only in the root, and a `const parent`. Each
  public method forwards to the parent or calls the private operation. Each
  method is proved to change the root's tables exactly as the matching
  `Lifecycle` function says. A ghost log `Invoked` records which private
  operations ran on which runner, as the spy in the runner's tests does.
- `RunnerScenarios` (runner_scenarios.dfy): the runner's test cases, written as
  client methods. They use only the class's contracts.
- `Util` (util.dfy): `createSaga`, `runSagasOnBootstrap` with its initializer
  loop, `whenAction`, `toPayload` and `all`.

The injector is a class with a counter, `instantiated`. Each
`resolveAndInstantiate` call returns the instance numbered by the counter and
increments it, so the counter is the number of resolver calls. A connection
returns a handle numbered by the root's `connects` counter.

## Model

| member | source | states |
|---|---|---|
| Lifecycle.Run | lib/runner.ts:49-62 | The injector is called exactly when the definition is not cached, and the new cache entry is that call's instance. A cached instance is kept. A running definition throws "already running" and changes nothing. A paused one reconnects. A success leaves it running. Nothing else is thrown. |
| Lifecycle.Pause | lib/runner.ts:72-91 | The cache is never touched and the injector is never called. The call throws "not resolved" exactly when the definition is not cached. It throws "already paused" exactly when the definition is cached but not connected. It succeeds exactly when the definition is running. A throw leaves the tables unchanged; a success leaves the definition paused. |
| Lifecycle.Stop | lib/runner.ts:101-110 | Any throw is pause's own error, with the tables unchanged. Stop never throws its own "not resolved" error. It succeeds exactly when the definition was running. After a success the definition is in neither table and the injector was not called. |
| Lifecycle.RunAll | lib/util.ts:28-29 | Running a list of definitions in order either succeeds or stops at an "already running" error. It calls the injector at most once per list entry. |
| Lifecycle.RunKeepsConsistent | lib/runner.ts:49-62 | `_run` preserves the invariant: every cached instance belongs to its key, every connected instance is the cached one for its definition, and no two connected instances share a handle. On a consistent registry the call throws exactly when the definition is running, and a throw changes nothing. Every other definition stays cached or uncached as it was, keeps its cached instance, and that instance keeps its connection and handle or stays disconnected. |
| Lifecycle.PauseKeepsConsistent | lib/runner.ts:72-91 | `_pause` preserves the invariant. Every other definition keeps its cache entry, and its instance keeps its connection and handle or stays disconnected. |
| Lifecycle.StopKeepsConsistent | lib/runner.ts:101-110 | `_stop` preserves the invariant. Every other definition keeps its cache entry, and its instance keeps its connection and handle or stays disconnected. |
| Lifecycle.RunAllKeepsConsistent | lib/util.ts:28-29 | A whole run of the initializer preserves the invariant. |
| Lifecycle.RunningAreResolved | lib/runner.ts:49-110 | Under the invariant, every key of the running table is a value of the resolved table, and distinct definitions never share an instance. |
| Lifecycle.DoubleRunFails | lib/runner.ts:50-61 | Running a definition that is not running succeeds. Running it again throws "already running", changes neither table and does not call the injector. |
| Lifecycle.RunPauseRunResolvesOnce | spec/index.spec.ts:127-139 | Run, pause and run on a never-resolved definition all succeed. Together they call the injector once, and the second run reconnects the first instance. |
| Lifecycle.RunStopRunResolvesTwice | spec/index.spec.ts:141-153 | Run, stop and run on a never-resolved definition all succeed. Together they call the injector twice, and the second run connects a different instance. |
| Lifecycle.PausedCannotBeStopped | lib/runner.ts:101-110 | Stopping a paused definition throws "already paused" and leaves the tables as they were. The next run therefore does not call the injector. |
| Lifecycle.DuplicateBootstrapFails | lib/util.ts:28-29 | Bootstrapping any list that holds the same definition at two positions ends in "already running", from any state. |
| Lifecycle.RunAllMeetsRunning | lib/util.ts:28-29 | Bootstrapping a list that holds a definition that is already running ends in "already running". |
| Lifecycle.RunLeavesRunning | lib/runner.ts:49-62 | After `_run`, whether it connects or throws, its definition is running, and every definition that was running still is. |
| Lifecycle.RunAllConnectsEach | lib/util.ts:24-36 | Bootstrapping distinct, never-resolved definitions succeeds and calls the injector once per definition. It leaves every one of them running. Every definition not in the list keeps its cache entry, and its instance keeps its connection and handle or stays disconnected. |
| Runner.Injector.ResolveAndInstantiate | lib/runner.ts:51 | Returns an instance of the given definition numbered by this injector's call count, and adds one to the count. |
| Runner.SagaRunner.constructor | lib/runner.ts:30-43 | A root runner starts with empty tables. A runner with a parent allocates none and sees its parent's tables. Both kinds are valid and have an empty call log. |
| Runner.SagaRunner.Connect | lib/runner.ts:45-47 | Returns a handle numbered above every handle returned before. |
| Runner.SagaRunner.RunLocal | lib/runner.ts:49-62 | The root's tables, the result and the injector count become exactly what `Lifecycle.Run` gives. The invariant is kept, and the call is logged. |
| Runner.SagaRunner.Run | lib/runner.ts:64-70 | From any runner of the chain, the root's tables, the result and the injector count follow `Lifecycle.Run`. The given injector is passed up unchanged, and only the root logs a `_run`. |
| Runner.SagaRunner.PauseLocal | lib/runner.ts:72-91 | The root's tables and the result become exactly what `Lifecycle.Pause` gives. The invariant is kept, and the call is logged. |
| Runner.SagaRunner.Pause | lib/runner.ts:93-99 | From any runner of the chain, the root's tables and the result follow `Lifecycle.Pause`. Only the root logs a `_pause`. |
| Runner.SagaRunner.StopLocal | lib/runner.ts:101-110 | The root's tables and the result become exactly what `Lifecycle.Stop` gives. The log records `_stop` followed by the `_pause` it calls through the public `pause`. |
| Runner.SagaRunner.Stop | lib/runner.ts:112-118 | From any runner of the chain, the root's tables and the result follow `Lifecycle.Stop`. Only the root logs the `_stop` and its `_pause`. |
| RunnerScenarios.RunResolvesAndConnects | spec/index.spec.ts:92-107 | Running a never-resolved definition succeeds. It calls the injector once, caches that call's instance and leaves the definition running. |
| RunnerScenarios.ResolveOnceAcrossPause | spec/index.spec.ts:127-139 | Through the class, run, pause and run all succeed and call the injector once in all. |
| RunnerScenarios.ResolveAgainAfterStop | spec/index.spec.ts:141-153 | Through the class, run, stop and run all succeed and call the injector twice in all. |
| RunnerScenarios.ChildForwardsEveryCall | spec/index.spec.ts:155-181 | Run, pause, run and stop on a child all reach the root, in order, and the child's injector is passed through. The child logs nothing, and its tables stay unallocated. |
| Util.CreateSaga | lib/util.ts:13-22 | Fails with "Cannot resolve all parameters for saga factory" exactly when the factory's parameter count differs from the number of dependencies. Otherwise it returns a new provider with a new token, described as "@ngrx/store Saga Effect", that carries the given dependencies and factory. |
| Util.CreateSagaDefault | lib/util.ts:13-22 | With the dependency list left at its default (empty), fails exactly when the factory declares parameters; otherwise returns a new provider with a new token and no dependencies. |
| Util.CreateSagaTwice | lib/util.ts:18-21 | Two successful calls with the same arguments give different definitions with different tokens. |
| Util.Bootstrap | lib/util.ts:24-36 | `runSagasOnBootstrap(sagas)` returns the runner class and one `multi` app initializer that carries exactly `sagas`. Running that initializer on a runner leaves the root's tables, the result and the injector count exactly as `Lifecycle.RunAll` of `sagas` gives; when it succeeds, the root has logged one `_run` per definition of `sagas`, in list order. |
| Util.RunInitializer | lib/util.ts:28-33 | The initializer's loop runs the initializer's own definitions: it leaves the root's tables, its result and the injector count exactly as `Lifecycle.RunAll` of them gives, and keeps the runner valid. When it succeeds, the root has logged one `_run` per definition, in list order. |
| Util.IndexOf | lib/util.ts:41 | Returns -1 exactly when the element is absent. Otherwise it returns an index holding the element, with no earlier occurrence. |
| Util.WhenAction | lib/util.ts:39-43 | True exactly when the action's type is one of the listed types. |
| Util.WhenActionNoTypesRejects | lib/util.ts:41 | With no types, every iteration is rejected. |
| Util.WhenActionExamples | spec/util.spec.ts:18-33 | `whenAction('demo')` rejects 'fail' and accepts 'demo'; `whenAction('a', 'b', 'c')` accepts 'a', 'b' and 'c' and rejects 'd'. |
| Util.FilterAllKeepsNothing | spec/util.spec.ts:83-93 | Filtering any sequence with `all` keeps nothing. |

`Lifecycle.Message` holds the four error texts (lib/runner.ts:60, 83-84, 88-89,
108). `Lifecycle.StatusOf` reads a definition's status off the two tables. The
`parent` getter (lib/runner.ts:120-122) is the class's `const parent` field.
`Util.ToPayload` (lib/util.ts:45-47) is the projection of the action's payload,
`Util.All` (lib/util.ts:49-51) the filter that is false for every input, and
`Util.RunSagasOnBootstrap` (lib/util.ts:24-36) the list of the two providers;
they are plain definitions, used by the members above. `Util.Filter` is a finite
stand-in for the observable `filter` that spec/util.spec.ts:87 applies to `all`.

## Left out

- The iteration stream (lib/runner.ts:39-41) is left out. `store.withLatestFrom(dispatcher)` is RxJS plumbing, so the root runner has no `_iterable` field.
- `_connect` (lib/runner.ts:45-47) only returns a fresh handle. Subscribing the saga to the stream and to the dispatcher is RxJS.
- `unsubscribe` (lib/runner.ts:79) is modelled only as removing the handle from the running table.
- Delivery of actions to sagas is left out. lib/runner.ts defines no `next`, although spec/index.spec.ts:120 and 167 call one.
- `applySelector` and `put` (lib/util.ts:54-71) are not modelled. They are thin RxJS stream wrappers.
- Angular dependency injection is abstracted:
  - `resolveAndInstantiate` is the `Injector` class with a call counter;
  - the `@Optional() @SkipSelf()` parent lookup is the constructor's explicit `parent` argument;
  - `APP_INITIALIZER` is the `AppInitializer` value together with the `RunInitializer` method.
- Runner.Injector.ResolveAndInstantiate: never fails. Resolution errors from a real injector are not modelled.
- Runner.Injector.ResolveAndInstantiate: always builds an instance owned by the definition it resolves. In lib/runner.ts:51 the instance is whatever the factory returns, so two definitions whose factories return the same saga object share one entry of the running table (lib/runner.ts:56-57, 76-80): running the second throws "already running" and pausing it disconnects the first. Such factories are not modelled. The second ensures of `Lifecycle.RunningAreResolved`, the "every other definition is left alone" conjuncts of `Lifecycle.RunKeepsConsistent`, `Lifecycle.PauseKeepsConsistent` and `Lifecycle.StopKeepsConsistent`, and the last ensures of `Lifecycle.RunAllConnectsEach` rest on this.
- Util.RunInitializer: does not model the `Promise.resolve(true)` result.
- Util.RunInitializer: the call log is stated only for a run that succeeds. When a run throws, only the tables, the error and the injector count are stated.
- Runner.SagaRunner.Run: the injector is always an explicit argument. Callers that rely on the default `this._injector` pass `runner.injector`, as the initializer does.
- Util.CreateSaga: takes the dependency list explicitly; the default `deps = []` (lib/util.ts:13) is `Util.CreateSagaDefault`.
- Util.WhenAction: takes the type list and the iteration together instead of returning a closure. `all` and `toPayload` are plain functions.
- `store` and `dispatcher` are constructor dependencies that only the stream uses, so they are not parameters of the constructor.
- lib/index.ts, lib/middleware.ts, lib/testing.ts and lib/scheduler.ts are not part of this model. They are stream wiring, a middleware adapter, a test harness and a scheduler constant.
- Concurrency and the async scheduler are left out. Every operation is one atomic step.

Where the error texts suggest another intent (lib/runner.ts:108), the model follows the code:

- `_stop` calls the public `pause` first, so stopping a never-resolved definition throws pause's "has not been resolved" error. The "cannot be stopped" branch (lib/runner.ts:108) is never reached; `Lifecycle.Stop` states this.
- Stopping a paused definition throws "already paused" and does not evict its instance (`Lifecycle.PausedCannotBeStopped`).
