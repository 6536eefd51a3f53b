/**
 * `SagaRunner` (lib/runner.ts): the registry that resolves saga definitions once,
 * connects each resolved instance at most once, and lets callers run, pause and
 * stop them. A runner built with a parent owns no tables and forwards every call
 * to that parent, so all state lives in the root of the chain.
 */
module Runner {
  import opened Wrappers
  import opened Interfaces
  import Lifecycle

  /** The injector handed to `run`, reduced to the one call the runner makes on it,
      `resolveAndInstantiate`. `instantiated` counts those calls and numbers the
      instances built. */
  class Injector {
    var instantiated: nat

    constructor ()
      ensures instantiated == 0
    {
      instantiated := 0;
    }

    method ResolveAndInstantiate(saga: Provider) returns (instance: Saga)
      modifies this
      ensures instance.definition == saga && instance.serial == old(instantiated)
      ensures instantiated == old(instantiated) + 1
    {
      instance := Saga(saga, instantiated);
      instantiated := instantiated + 1;
    }
  }

  /** A call of one of the runner's private operations, as a spy records it. */
  datatype Invocation = RunInvoked(saga: Provider) | PauseInvoked(saga: Provider) | StopInvoked(saga: Provider)

  /** The log of one `_run` per definition, in order. */
  function Runs(sagas: seq<Provider>): (log: seq<Invocation>)
    ensures |log| == |sagas|
  {
    if sagas == [] then [] else Runs(sagas[..|sagas| - 1]) + [RunInvoked(sagas[|sagas| - 1])]
  }

  /** One more `_run` extends the log of the definitions run so far by that definition. */
  lemma RunsExtend(log: seq<Invocation>, done: seq<Provider>, saga: Provider, before: seq<Invocation>, after: seq<Invocation>)
    requires before == log + Runs(done) && after == before + [RunInvoked(saga)]
    ensures after == log + Runs(done + [saga])
  {
    assert (done + [saga])[..|done|] == done;
  }

  class SagaRunner {
    const parent: SagaRunner?
    const injector: Injector
    var resolvedSagas: Option<map<Provider, Saga>>
    var runningSagas: Option<map<Saga, Subscription>>
    // the root's connection count; a runner with a parent keeps it at 0 and never reads it
    var connects: nat

    // the chain of parents: how far this runner is from the root, and the runners above it
    ghost const depth: nat
    ghost const Ancestors: set<SagaRunner>
    // the private operations invoked on this runner, oldest first
    ghost var Invoked: seq<Invocation>

    ghost predicate Linked()
      decreases depth
    {
      if parent == null then Ancestors == {}
      else parent.depth < depth && Ancestors == {parent} + parent.Ancestors && parent.Linked()
    }

    /** The runner at the top of the chain: the one that owns the tables. */
    ghost function Root(): (root: SagaRunner)
      requires Linked()
      ensures root.parent == null && root.Linked()
      ensures root == this || root in Ancestors
      decreases depth
    {
      if parent == null then this else parent.Root()
    }

    /** Only the root has its tables allocated, and they are consistent. */
    ghost predicate Valid()
      reads this, Ancestors
      decreases depth
    {
      && Linked()
      && if parent == null then
           && resolvedSagas.Some? && runningSagas.Some?
           && Lifecycle.Consistent(Lifecycle.Registry(resolvedSagas.value, runningSagas.value, connects))
         else
           && resolvedSagas.None? && runningSagas.None?
           && parent.Valid()
    }

    /** The root's tables, as seen from any runner of the chain. */
    ghost function View(): (reg: Lifecycle.Registry)
      reads this, Ancestors
      requires Valid()
      ensures Lifecycle.Consistent(reg)
      decreases depth
    {
      if parent == null then Lifecycle.Registry(resolvedSagas.value, runningSagas.value, connects)
      else parent.View()
    }

    /** A root runner allocates empty tables; a runner with a parent allocates none. */
    constructor (injector: Injector, parent: SagaRunner?)
      requires parent != null ==> parent.Valid()
      ensures this.injector == injector && this.parent == parent
      ensures Valid() && Invoked == []
      ensures parent == null ==> View() == Lifecycle.Empty()
      ensures parent != null ==> resolvedSagas == None && runningSagas == None && View() == parent.View()
    {
      this.injector := injector;
      this.parent := parent;
      if parent == null {
        depth := 0;
        Ancestors := {};
        resolvedSagas := Some(map[]);
        runningSagas := Some(map[]);
      } else {
        depth := parent.depth + 1;
        Ancestors := {parent} + parent.Ancestors;
        resolvedSagas := None;
        runningSagas := None;
      }
      connects := 0;
      Invoked := [];
    }

    /** `_connect`: subscribe the instance to the iteration stream and return the handle,
        numbered above every handle handed out before. */
    method Connect(saga: Saga) returns (sub: Subscription)
      modifies this`connects
      ensures sub.serial == old(connects) && connects == old(connects) + 1
    {
      sub := Subscription(connects);
      connects := connects + 1;
    }

    /** `_run`: resolve unless cached, then connect unless already connected. */
    method RunLocal(saga: Provider, injector: Injector) returns (r: Outcome<Lifecycle.SagaError>)
      requires Valid() && parent == null
      modifies this, injector
      ensures Valid()
      ensures var step := Lifecycle.Run(old(View()), saga, old(injector.instantiated));
              View() == step.reg && r == step.outcome
              && injector.instantiated == old(injector.instantiated) + step.resolverCalls
      ensures Invoked == old(Invoked) + [RunInvoked(saga)]
    {
      Lifecycle.RunKeepsConsistent(View(), saga, injector.instantiated);
      Invoked := Invoked + [RunInvoked(saga)];
      if saga !in resolvedSagas.value {
        var instance := injector.ResolveAndInstantiate(saga);
        resolvedSagas := Some(resolvedSagas.value[saga := instance]);
      }
      var resolved := resolvedSagas.value[saga];
      if resolved !in runningSagas.value {
        var sub := Connect(resolved);
        runningSagas := Some(runningSagas.value[resolved := sub]);
        r := Pass;
      } else {
        r := Fail(Lifecycle.AlreadyRunning);
      }
    }

    /** `run`: forwarded with the same injector when there is a parent; the root runs it. */
    method Run(saga: Provider, injector: Injector) returns (r: Outcome<Lifecycle.SagaError>)
      requires Valid()
      modifies Root(), injector
      ensures Valid()
      ensures var step := Lifecycle.Run(old(View()), saga, old(injector.instantiated));
              View() == step.reg && r == step.outcome
              && injector.instantiated == old(injector.instantiated) + step.resolverCalls
      ensures Root().Invoked == old(Root().Invoked) + [RunInvoked(saga)]
      decreases depth
    {
      if parent != null {
        r := parent.Run(saga, injector);
        return;
      }
      r := RunLocal(saga, injector);
    }

    /** `_pause`: disconnect the cached instance and drop its handle; keep the instance. */
    method PauseLocal(saga: Provider) returns (r: Outcome<Lifecycle.SagaError>)
      requires Valid() && parent == null
      modifies this
      ensures Valid()
      ensures var step := Lifecycle.Pause(old(View()), saga);
              View() == step.reg && r == step.outcome
      ensures Invoked == old(Invoked) + [PauseInvoked(saga)]
    {
      Lifecycle.PauseKeepsConsistent(View(), saga);
      Invoked := Invoked + [PauseInvoked(saga)];
      if saga in resolvedSagas.value {
        var resolved := resolvedSagas.value[saga];
        if resolved in runningSagas.value {
          runningSagas := Some(runningSagas.value - {resolved});
          r := Pass;
        } else {
          r := Fail(Lifecycle.AlreadyPaused);
        }
      } else {
        r := Fail(Lifecycle.NotResolved);
      }
    }

    /** `pause`: forwarded when there is a parent; the root pauses. */
    method Pause(saga: Provider) returns (r: Outcome<Lifecycle.SagaError>)
      requires Valid()
      modifies Root()
      ensures Valid()
      ensures var step := Lifecycle.Pause(old(View()), saga);
              View() == step.reg && r == step.outcome
      ensures Root().Invoked == old(Root().Invoked) + [PauseInvoked(saga)]
      decreases depth
    {
      if parent != null {
        r := parent.Pause(saga);
        return;
      }
      r := PauseLocal(saga);
    }

    /** `_stop`: the public `pause` first, whose error is rethrown, then evict the instance. */
    method StopLocal(saga: Provider) returns (r: Outcome<Lifecycle.SagaError>)
      requires Valid() && parent == null
      modifies this
      ensures Valid()
      ensures var step := Lifecycle.Stop(old(View()), saga);
              View() == step.reg && r == step.outcome
      ensures Invoked == old(Invoked) + [StopInvoked(saga), PauseInvoked(saga)]
    {
      Lifecycle.StopKeepsConsistent(View(), saga);
      Invoked := Invoked + [StopInvoked(saga)];
      r := Pause(saga);
      if r.Fail? {
        return;
      }
      if saga in resolvedSagas.value {
        resolvedSagas := Some(resolvedSagas.value - {saga});
      } else {
        r := Fail(Lifecycle.StopNotResolved);
      }
    }

    /** `stop`: forwarded when there is a parent; the root stops. */
    method Stop(saga: Provider) returns (r: Outcome<Lifecycle.SagaError>)
      requires Valid()
      modifies Root()
      ensures Valid()
      ensures var step := Lifecycle.Stop(old(View()), saga);
              View() == step.reg && r == step.outcome
      ensures Root().Invoked == old(Root().Invoked) + [StopInvoked(saga), PauseInvoked(saga)]
      decreases depth
    {
      if parent != null {
        r := parent.Stop(saga);
        return;
      }
      r := StopLocal(saga);
    }
  }
}
