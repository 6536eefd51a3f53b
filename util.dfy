/**
 * The helpers of lib/util.ts: building a saga definition, bootstrapping a list of
 * definitions through the runner, and the small filters and projections that saga
 * authors apply to the iteration stream.
 */
module Util {
  import opened Wrappers
  import opened Interfaces
  import opened Runner
  import Lifecycle

  /** The description every saga token carries. */
  const SagaTokenDescription := "@ngrx/store Saga Effect"

  /** What `createSaga` throws when the factory's arity does not match its dependencies. */
  const CannotResolveAllParameters := "Cannot resolve all parameters for saga factory"

  /** `createSaga(factory, deps)`: a definition with a new token, unless the factory
      declares a different number of parameters than `deps` supplies. A new token and
      provider make every definition different from all that existed before. */
  method CreateSaga(factory: SagaFactory, deps: seq<Dependency>) returns (r: Result<Provider, string>)
    ensures r.Failure? <==> factory.length != |deps|
    ensures r.Failure? ==> r.error == CannotResolveAllParameters
    ensures r.Success? ==> && fresh(r.value) && fresh(r.value.token)
                           && r.value.token.description == SagaTokenDescription
                           && r.value.deps == deps && r.value.useFactory == factory
  {
    if factory.length != |deps| {
      return Failure(CannotResolveAllParameters);
    }
    var token := new OpaqueToken(SagaTokenDescription);
    var provider := new Provider(token, deps, factory);
    return Success(provider);
  }

  /** `createSaga(factory)` with the dependency list left out: the list defaults to empty,
      so only a factory that declares no parameters is accepted. */
  method CreateSagaDefault(factory: SagaFactory) returns (r: Result<Provider, string>)
    ensures r.Failure? <==> factory.length != 0
    ensures r.Failure? ==> r.error == CannotResolveAllParameters
    ensures r.Success? ==> && fresh(r.value) && fresh(r.value.token)
                           && r.value.token.description == SagaTokenDescription
                           && r.value.deps == [] && r.value.useFactory == factory
  {
    r := CreateSaga(factory, []);
  }

  /** Two successful `createSaga` calls never give the same definition, even with the
      same factory and dependencies. */
  method CreateSagaTwice(factory: SagaFactory, deps: seq<Dependency>)
    returns (a: Result<Provider, string>, b: Result<Provider, string>)
    ensures a.Success? <==> factory.length == |deps|
    ensures b.Success? <==> factory.length == |deps|
    ensures a.Success? && b.Success? ==> a.value != b.value && a.value.token != b.value.token
  {
    a := CreateSaga(factory, deps);
    b := CreateSaga(factory, deps);
  }

  /** What `runSagasOnBootstrap` returns: the runner class itself, and an app initializer
      (one of several, `multi`) that runs `sagas` through the runner. */
  datatype BootstrapProvider = SagaRunnerClass | AppInitializer(multi: bool, sagas: seq<Provider>)

  function RunSagasOnBootstrap(sagas: seq<Provider>): seq<BootstrapProvider>
  {
    [SagaRunnerClass, AppInitializer(true, sagas)]
  }

  /** Bootstrapping: the providers `runSagasOnBootstrap(sagas)` returns, and what running
      their app initializer on the runner does. */
  method Bootstrap(runner: SagaRunner, sagas: seq<Provider>)
    returns (providers: seq<BootstrapProvider>, r: Outcome<Lifecycle.SagaError>)
    requires runner.Valid()
    modifies runner.Root(), runner.injector
    ensures |providers| == 2 && providers[0] == SagaRunnerClass
    ensures providers[1].AppInitializer? && providers[1].multi && providers[1].sagas == sagas
    ensures runner.Valid()
    ensures var all := Lifecycle.RunAll(old(runner.View()), sagas, old(runner.injector.instantiated));
            runner.View() == all.reg && r == all.outcome
            && runner.injector.instantiated == old(runner.injector.instantiated) + all.resolverCalls
    ensures r.Pass? ==> runner.Root().Invoked == old(runner.Root().Invoked) + Runs(sagas)
  {
    providers := RunSagasOnBootstrap(sagas);
    r := RunInitializer(runner, providers[1]);
  }

  /** The initializer's factory: `runner.run(saga)` with the runner's own injector for each
      saga of the initializer in order; the first error stops the loop and reaches the caller. */
  method RunInitializer(runner: SagaRunner, init: BootstrapProvider) returns (r: Outcome<Lifecycle.SagaError>)
    requires runner.Valid() && init.AppInitializer?
    modifies runner.Root(), runner.injector
    ensures runner.Valid()
    ensures var all := Lifecycle.RunAll(old(runner.View()), init.sagas, old(runner.injector.instantiated));
            runner.View() == all.reg && r == all.outcome
            && runner.injector.instantiated == old(runner.injector.instantiated) + all.resolverCalls
    ensures r.Pass? ==> runner.Root().Invoked == old(runner.Root().Invoked) + Runs(init.sagas)
  {
    var sagas := init.sagas;
    ghost var reg := runner.View();
    ghost var count := runner.injector.instantiated;
    ghost var start := count;
    ghost var whole := Lifecycle.RunAll(reg, sagas, count);
    ghost var log := runner.Root().Invoked;
    ghost var done := [];
    var todo := sagas;
    while todo != []
      invariant runner.Valid() && runner.View() == reg && runner.injector.instantiated == count
      invariant Lifecycle.Remaining(whole, start, reg, todo, count)
      invariant done + todo == sagas && runner.Root().Invoked == log + Runs(done)
      decreases |todo|
    {
      ghost var before := runner.Root().Invoked;
      var o := runner.Run(todo[0], runner.injector);
      Lifecycle.RunAllAdvance(whole, start, reg, todo, count, runner.View(), o, runner.injector.instantiated);
      reg, count := runner.View(), runner.injector.instantiated;
      if o.Fail? {
        return o;
      }
      RunsExtend(log, done, todo[0], before, runner.Root().Invoked);
      MoveFirst(done, todo);
      done, todo := done + [todo[0]], todo[1..];
    }
    assert done == sagas;
    r := Pass;
  }

  /** Moving the first element of `todo` to the end of `done` keeps their concatenation. */
  lemma MoveFirst<T>(done: seq<T>, todo: seq<T>)
    requires todo != []
    ensures (done + [todo[0]]) + todo[1..] == done + todo
  {
    assert todo == [todo[0]] + todo[1..];
  }

  /** JavaScript's `Array.prototype.indexOf`: the first position of `x`, or -1. */
  function IndexOf<T(==)>(xs: seq<T>, x: T): (i: int)
    ensures -1 <= i < |xs|
    ensures i == -1 <==> x !in xs
    ensures 0 <= i ==> xs[i] == x && x !in xs[..i]
  {
    if xs == [] then -1
    else if xs[0] == x then 0
    else
      var j := IndexOf(xs[1..], x);
      if j == -1 then -1 else j + 1
  }

  /** `whenAction(...types)(iteration)`: does the action have one of the listed types? */
  function WhenAction<S, P>(types: seq<string>, iteration: SagaIteration<S, P>): (b: bool)
    ensures b <==> iteration.action.actionType in types
  {
    IndexOf(types, iteration.action.actionType) >= 0
  }

  /** `toPayload(iteration)`: the payload of the iteration's action. */
  function ToPayload<S, P>(iteration: SagaIteration<S, P>): P
  {
    iteration.action.payload
  }

  /** `all`: the filter that rejects everything. */
  function All<T>(x: T): bool
  {
    false
  }

  /** An observable's `filter`, on a finite sequence of items. */
  function Filter<T>(xs: seq<T>, keep: T -> bool): (r: seq<T>)
    ensures |r| <= |xs|
    ensures forall y :: y in r ==> y in xs && keep(y)
    ensures forall y :: y in xs && keep(y) ==> y in r
  {
    if xs == [] then []
    else (if keep(xs[0]) then [xs[0]] else []) + Filter(xs[1..], keep)
  }

  /** `whenAction()` with no types rejects every iteration. */
  lemma WhenActionNoTypesRejects<S, P>(iteration: SagaIteration<S, P>)
    ensures !WhenAction([], iteration)
  {
  }

  /** Filtering with `all` keeps nothing. */
  lemma {:induction false} FilterAllKeepsNothing<T>(xs: seq<T>)
    ensures Filter(xs, All) == []
  {
    if xs != [] {
      FilterAllKeepsNothing(xs[1..]);
    }
  }

  /** The filters in the utility tests: `whenAction('demo')` rejects 'fail' and accepts
      'demo'; `whenAction('a', 'b', 'c')` accepts each of 'a', 'b', 'c' and rejects 'd'. */
  lemma WhenActionExamples<S, P>(state: S, payload: P)
    ensures !WhenAction(["demo"], SagaIteration(state, Action("fail", payload)))
    ensures WhenAction(["demo"], SagaIteration(state, Action("demo", payload)))
    ensures WhenAction(["a", "b", "c"], SagaIteration(state, Action("a", payload)))
    ensures WhenAction(["a", "b", "c"], SagaIteration(state, Action("b", payload)))
    ensures WhenAction(["a", "b", "c"], SagaIteration(state, Action("c", payload)))
    ensures !WhenAction(["a", "b", "c"], SagaIteration(state, Action("d", payload)))
  {
  }
}
