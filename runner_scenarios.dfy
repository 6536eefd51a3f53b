/**
 * The runner's own test cases (spec/index.spec.ts), as client methods that use only
 * the contracts of `SagaRunner`.
 */
module RunnerScenarios {
  import opened Wrappers
  import opened Interfaces
  import opened Runner
  import opened Lifecycle

  /** Running a never-resolved effect calls its factory once and connects it. */
  method RunResolvesAndConnects(runner: SagaRunner, effect: Provider) returns (r: Outcome<SagaError>)
    requires runner.Valid() && StatusOf(runner.View(), effect) == Unresolved
    modifies runner.Root(), runner.injector
    ensures runner.Valid() && r == Pass
    ensures runner.injector.instantiated == old(runner.injector.instantiated) + 1
    ensures effect in runner.View().resolved && runner.View().resolved[effect] == Saga(effect, old(runner.injector.instantiated))
    ensures StatusOf(runner.View(), effect) == Running
  {
    RunKeepsConsistent(runner.View(), effect, runner.injector.instantiated);
    r := runner.Run(effect, runner.injector);
  }

  /** Restarting a paused effect does not call the injector again. */
  method ResolveOnceAcrossPause(runner: SagaRunner, effect: Provider)
    returns (first: Outcome<SagaError>, paused: Outcome<SagaError>, second: Outcome<SagaError>)
    requires runner.Valid() && StatusOf(runner.View(), effect) == Unresolved
    modifies runner.Root(), runner.injector
    ensures runner.Valid()
    ensures first == Pass && paused == Pass && second == Pass
    ensures runner.injector.instantiated == old(runner.injector.instantiated) + 1
    ensures StatusOf(runner.View(), effect) == Running
  {
    RunKeepsConsistent(runner.View(), effect, runner.injector.instantiated);
    first := runner.Run(effect, runner.injector);
    paused := runner.Pause(effect);
    second := runner.Run(effect, runner.injector);
  }

  /** Restarting a stopped effect resolves it through the injector again. */
  method ResolveAgainAfterStop(runner: SagaRunner, effect: Provider)
    returns (first: Outcome<SagaError>, stopped: Outcome<SagaError>, second: Outcome<SagaError>)
    requires runner.Valid() && StatusOf(runner.View(), effect) == Unresolved
    modifies runner.Root(), runner.injector
    ensures runner.Valid()
    ensures first == Pass && stopped == Pass && second == Pass
    ensures runner.injector.instantiated == old(runner.injector.instantiated) + 2
    ensures StatusOf(runner.View(), effect) == Running
  {
    RunKeepsConsistent(runner.View(), effect, runner.injector.instantiated);
    first := runner.Run(effect, runner.injector);
    StopKeepsConsistent(runner.View(), effect);
    stopped := runner.Stop(effect);
    RunKeepsConsistent(runner.View(), effect, runner.injector.instantiated);
    second := runner.Run(effect, runner.injector);
  }

  /** Four appends in turn give one append of all five elements. */
  lemma AppendedInTurn<T>(s0: seq<T>, s1: seq<T>, s2: seq<T>, s3: seq<T>, s4: seq<T>, a: T, b: T, c: T, d: T, e: T)
    requires s1 == s0 + [a] && s2 == s1 + [b] && s3 == s2 + [c] && s4 == s3 + [d, e]
    ensures s4 == s0 + [a, b, c, d, e]
  {
  }

  /** A child runner hands run, pause, run, stop to its parent, passing its own injector;
      none of its private operations runs and its tables stay unallocated. */
  method ChildForwardsEveryCall(root: SagaRunner, child: SagaRunner, effect: Provider)
    requires child.Valid() && child.parent == root && root.parent == null
    requires StatusOf(child.View(), effect) == Unresolved
    modifies root, child.injector
    ensures child.Valid() && root.Valid()
    ensures child.resolvedSagas == None && child.runningSagas == None
    ensures child.Invoked == old(child.Invoked)
    ensures root.Invoked == old(root.Invoked)
      + [RunInvoked(effect), PauseInvoked(effect), RunInvoked(effect), StopInvoked(effect), PauseInvoked(effect)]
    ensures child.injector.instantiated == old(child.injector.instantiated) + 1
    ensures StatusOf(root.View(), effect) == Unresolved
  {
    assert child.Root() == root;
    ghost var log0 := root.Invoked;
    var r := child.Run(effect, child.injector);
    ghost var log1 := root.Invoked;
    r := child.Pause(effect);
    ghost var log2 := root.Invoked;
    r := child.Run(effect, child.injector);
    ghost var log3 := root.Invoked;
    r := child.Stop(effect);
    AppendedInTurn(log0, log1, log2, log3, root.Invoked,
      RunInvoked(effect), PauseInvoked(effect), RunInvoked(effect), StopInvoked(effect), PauseInvoked(effect));
  }
}
