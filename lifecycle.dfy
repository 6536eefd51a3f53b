/**
 * The saga runner's two tables as values, and what `_run`, `_pause` and `_stop`
 * (lib/runner.ts) do to them. The class in module Runner is proved to follow
 * these functions; the properties the runner promises are proved here.
 */
module Lifecycle {
  import opened Wrappers
  import opened Interfaces

  /** The errors the runner throws; `Message` gives their text. */
  datatype SagaError = AlreadyRunning | AlreadyPaused | NotResolved | StopNotResolved

  function Message(e: SagaError): string
  {
    match e
    case AlreadyRunning => "Saga Effect is already running"
    case AlreadyPaused => "Saga Effect cannot be paused: Effect is already paused"
    case NotResolved => "Saga Effect cannot be paused: Effect is not running and has not been resolved"
    case StopNotResolved => "Saga Effect cannot be stopped: Effect is not resolved"
  }

  /** The root runner's state: `_resolvedSagas`, `_runningSagas`, and the number of
      connections made so far (the source of fresh subscription handles). */
  datatype Registry = Registry(
    resolved: map<Provider, Saga>,
    running: map<Saga, Subscription>,
    connects: nat)

  /** The state after one operation, what it returned or threw, and how many times it
      called the injector. */
  datatype Step = Step(reg: Registry, outcome: Outcome<SagaError>, resolverCalls: nat)

  /** Where one definition stands. */
  datatype Status = Unresolved | Paused | Running

  /** The tables as a fresh root runner allocates them. */
  function Empty(): Registry
  {
    Registry(map[], map[], 0)
  }

  function StatusOf(reg: Registry, saga: Provider): Status
  {
    if saga !in reg.resolved then Unresolved
    else if reg.resolved[saga] in reg.running then Running
    else Paused
  }

  /** The instance cached under `p`, if any, was built from `p`. */
  ghost predicate OwnKey(reg: Registry, p: Provider)
  {
    p in reg.resolved ==> reg.resolved[p].definition == p
  }

  /** A connected instance is the one cached under its definition, and its handle is
      numbered below the connection count. */
  ghost predicate CachedWhenConnected(reg: Registry, s: Saga)
  {
    s in reg.running ==>
      s.definition in reg.resolved && reg.resolved[s.definition] == s && reg.running[s].serial < reg.connects
  }

  /** Two connected instances with the same handle are the same instance. */
  ghost predicate OwnHandle(reg: Registry, s: Saga, t: Saga)
  {
    s in reg.running && t in reg.running && reg.running[s] == reg.running[t] ==> s == t
  }

  /** The invariant every operation keeps, stated element by element (the proofs below
      name the elements they need). */
  ghost predicate Consistent(reg: Registry)
  {
    && (forall p {:trigger OwnKey(reg, p)} | p in reg.resolved :: OwnKey(reg, p))
    && (forall s {:trigger CachedWhenConnected(reg, s)} | s in reg.running :: CachedWhenConnected(reg, s))
    && (forall s, t {:trigger OwnHandle(reg, s, t)} | s in reg.running && t in reg.running :: OwnHandle(reg, s, t))
  }

  /** Definition `q` is left alone between `before` and `after`: it is cached on both sides
      or on neither, keeps its cached instance, and that instance keeps its connection and
      its handle, or stays disconnected. Its status is therefore the same. */
  ghost predicate Kept(before: Registry, after: Registry, q: Provider)
  {
    && (q in after.resolved <==> q in before.resolved)
    && (q in before.resolved ==>
          var instance := before.resolved[q];
          && after.resolved[q] == instance
          && (instance in after.running <==> instance in before.running)
          && (instance in before.running ==> after.running[instance] == before.running[instance]))
  }

  /** Leaving a definition alone in two steps leaves it alone in both together. */
  lemma KeptTransitive(a: Registry, b: Registry, c: Registry, q: Provider)
    requires Kept(a, b, q) && Kept(b, c, q)
    ensures Kept(a, c, q) && StatusOf(c, q) == StatusOf(a, q)
  {
  }

  /** Every definition other than `saga` is left alone between `before` and `after` (one in
      neither cache trivially is). */
  ghost predicate OthersUnchanged(before: Registry, after: Registry, saga: Provider)
  {
    forall q {:trigger Kept(before, after, q)} | q in before.resolved.Keys + after.resolved.Keys && q != saga ::
      Kept(before, after, q)
  }

  /** `_run(saga, injector)`: resolve through the injector unless cached (the injector
      would number the new instance `serial`), then connect unless already connected.
      As in the source, the cache is written before the "already running" check. */
  function Run(reg: Registry, saga: Provider, serial: nat): (s: Step)
    ensures s.resolverCalls == if StatusOf(reg, saga) == Unresolved then 1 else 0
    ensures saga in s.reg.resolved && (saga in reg.resolved ==> s.reg.resolved[saga] == reg.resolved[saga])
    ensures saga !in reg.resolved ==> s.reg.resolved[saga] == Saga(saga, serial)
    ensures s.outcome.Pass? || s.outcome == Fail(AlreadyRunning)
    ensures StatusOf(reg, saga) == Running ==> s.outcome == Fail(AlreadyRunning) && s.reg == reg
    ensures StatusOf(reg, saga) == Paused ==> s.outcome == Pass
    ensures s.outcome.Pass? ==> StatusOf(s.reg, saga) == Running
  {
    var resolved := if saga in reg.resolved then reg.resolved else reg.resolved[saga := Saga(saga, serial)];
    var calls := if saga in reg.resolved then 0 else 1;
    var instance := resolved[saga];
    if instance !in reg.running then
      Step(Registry(resolved, reg.running[instance := Subscription(reg.connects)], reg.connects + 1), Pass, calls)
    else
      Step(reg.(resolved := resolved), Fail(AlreadyRunning), calls)
  }

  /** `_pause(saga)`: disconnect the cached instance, keeping it cached. */
  function Pause(reg: Registry, saga: Provider): (s: Step)
    ensures s.resolverCalls == 0
    ensures s.reg.resolved == reg.resolved
    ensures s.outcome == Fail(NotResolved) <==> StatusOf(reg, saga) == Unresolved
    ensures s.outcome == Fail(AlreadyPaused) <==> StatusOf(reg, saga) == Paused
    ensures s.outcome.Pass? <==> StatusOf(reg, saga) == Running
    ensures s.outcome.Fail? ==> s.reg == reg
    ensures s.outcome.Pass? ==> StatusOf(s.reg, saga) == Paused
  {
    if saga in reg.resolved then
      var instance := reg.resolved[saga];
      if instance in reg.running then
        Step(reg.(running := reg.running - {instance}), Pass, 0)
      else
        Step(reg, Fail(AlreadyPaused), 0)
    else
      Step(reg, Fail(NotResolved), 0)
  }

  /** `_stop(saga)`: pause (its errors pass through unchanged), then evict the cached
      instance; the "not resolved" branch of the source follows a successful pause. */
  function Stop(reg: Registry, saga: Provider): (s: Step)
    ensures s.resolverCalls == 0
    ensures s.outcome.Fail? ==> s.outcome == Pause(reg, saga).outcome && s.reg == reg
    ensures s.outcome != Fail(StopNotResolved)
    ensures s.outcome.Pass? <==> StatusOf(reg, saga) == Running
    ensures s.outcome.Pass? ==> saga in reg.resolved && saga !in s.reg.resolved && reg.resolved[saga] !in s.reg.running
  {
    var paused := Pause(reg, saga);
    if paused.outcome.Fail? then
      paused
    else if saga in paused.reg.resolved then
      Step(paused.reg.(resolved := paused.reg.resolved - {saga}), Pass, 0)
    else
      Step(paused.reg, Fail(StopNotResolved), paused.resolverCalls)
  }

  /** `run` applied to each definition in order, stopping at the first that throws;
      `serial` is the injector's count before the first call. */
  function RunAll(reg: Registry, sagas: seq<Provider>, serial: nat): (s: Step)
    ensures s.outcome.Pass? || s.outcome == Fail(AlreadyRunning)
    ensures s.resolverCalls <= |sagas|
    decreases |sagas|
  {
    if sagas == [] then Step(reg, Pass, 0)
    else
      var first := Run(reg, sagas[0], serial);
      if first.outcome.Fail? then first
      else
        var rest := RunAll(first.reg, sagas[1..], serial + first.resolverCalls);
        Step(rest.reg, rest.outcome, first.resolverCalls + rest.resolverCalls)
  }

  /** Where a run of `sagas` from `start` stands after some of them: `whole` is the result
      of running all of them, `reg` and `count` the registry and injector count reached so
      far, and `todo` what is left to run. */
  ghost predicate Remaining(whole: Step, start: nat, reg: Registry, todo: seq<Provider>, count: nat)
  {
    var rest := RunAll(reg, todo, count);
    && whole.reg == rest.reg && whole.outcome == rest.outcome
    && start + whole.resolverCalls == count + rest.resolverCalls
  }

  /** Running the next definition of `todo`, which leaves `after`, `outcome` and the
      injector count `next`, either throws, and then the whole run ends there, or moves on
      to the rest of `todo`. */
  lemma RunAllAdvance(whole: Step, start: nat, reg: Registry, todo: seq<Provider>, count: nat,
                      after: Registry, outcome: Outcome<SagaError>, next: nat)
    requires todo != [] && Remaining(whole, start, reg, todo, count)
    requires var first := Run(reg, todo[0], count);
             after == first.reg && outcome == first.outcome && next == count + first.resolverCalls
    ensures outcome.Fail? ==> whole.reg == after && whole.outcome == outcome && start + whole.resolverCalls == next
    ensures outcome.Pass? ==> Remaining(whole, start, after, todo[1..], next)
  {
  }

  /** A definition other than `saga` is left alone, whether or not it is cached. */
  lemma OtherKept(before: Registry, after: Registry, saga: Provider, q: Provider)
    requires OthersUnchanged(before, after, saga) && q != saga
    ensures Kept(before, after, q) && StatusOf(after, q) == StatusOf(before, q)
  {
    if q in before.resolved.Keys + after.resolved.Keys {
      assert Kept(before, after, q);
    }
  }

  /** `_run` keeps the invariant; on a consistent registry it throws exactly when the
      definition is running, a throw changes nothing, and no other definition moves. */
  lemma RunKeepsConsistent(reg: Registry, saga: Provider, serial: nat)
    requires Consistent(reg)
    ensures var s := Run(reg, saga, serial);
            && Consistent(s.reg)
            && (s.outcome == Fail(AlreadyRunning) <==> StatusOf(reg, saga) == Running)
            && (s.outcome.Fail? ==> s.reg == reg)
            && OthersUnchanged(reg, s.reg, saga)
  {
    var s := Run(reg, saga, serial);
    var instance := s.reg.resolved[saga];
    assert OwnKey(reg, saga);
    assert instance.definition == saga;
    if saga !in reg.resolved {
      assert CachedWhenConnected(reg, instance);
    }
    forall p
      ensures OwnKey(s.reg, p)
    {
      assert OwnKey(reg, p);
    }
    forall x
      ensures CachedWhenConnected(s.reg, x)
    {
      assert CachedWhenConnected(reg, x);
    }
    forall x, y
      ensures OwnHandle(s.reg, x, y)
    {
      assert OwnHandle(reg, x, y);
      assert CachedWhenConnected(reg, x) && CachedWhenConnected(reg, y);
    }
    forall q | q in reg.resolved.Keys + s.reg.resolved.Keys && q != saga
      ensures Kept(reg, s.reg, q)
    {
      assert OwnKey(reg, q);
    }
  }

  /** `_pause` keeps the invariant and moves no other definition. */
  lemma PauseKeepsConsistent(reg: Registry, saga: Provider)
    requires Consistent(reg)
    ensures Consistent(Pause(reg, saga).reg)
    ensures OthersUnchanged(reg, Pause(reg, saga).reg, saga)
  {
    var s := Pause(reg, saga);
    forall p
      ensures OwnKey(s.reg, p)
    {
      assert OwnKey(reg, p);
    }
    forall x
      ensures CachedWhenConnected(s.reg, x)
    {
      assert CachedWhenConnected(reg, x);
    }
    forall x, y
      ensures OwnHandle(s.reg, x, y)
    {
      assert OwnHandle(reg, x, y);
    }
    forall q | q in reg.resolved.Keys + s.reg.resolved.Keys && q != saga
      ensures Kept(reg, s.reg, q)
    {
      assert OwnKey(reg, q) && OwnKey(reg, saga);
    }
  }

  /** `_stop` keeps the invariant and moves no other definition. */
  lemma StopKeepsConsistent(reg: Registry, saga: Provider)
    requires Consistent(reg)
    ensures Consistent(Stop(reg, saga).reg)
    ensures OthersUnchanged(reg, Stop(reg, saga).reg, saga)
  {
    PauseKeepsConsistent(reg, saga);
    var paused := Pause(reg, saga);
    var s := Stop(reg, saga);
    if s.outcome.Pass? {
      var instance := reg.resolved[saga];
      assert instance !in s.reg.running;
      forall p
        ensures OwnKey(s.reg, p)
      {
        assert OwnKey(paused.reg, p);
      }
      forall x
        ensures CachedWhenConnected(s.reg, x)
      {
        assert CachedWhenConnected(paused.reg, x);
      }
      forall x, y
        ensures OwnHandle(s.reg, x, y)
      {
        assert OwnHandle(paused.reg, x, y);
      }
      forall q | q in reg.resolved.Keys + s.reg.resolved.Keys && q != saga
        ensures Kept(reg, s.reg, q)
      {
        assert Kept(reg, paused.reg, q);
      }
    }
  }

  /** Running definitions one after another keeps the invariant. */
  lemma {:induction false} RunAllKeepsConsistent(reg: Registry, sagas: seq<Provider>, serial: nat)
    requires Consistent(reg)
    ensures Consistent(RunAll(reg, sagas, serial).reg)
    decreases |sagas|
  {
    if sagas != [] {
      RunKeepsConsistent(reg, sagas[0], serial);
      var first := Run(reg, sagas[0], serial);
      if first.outcome.Pass? {
        RunAllKeepsConsistent(first.reg, sagas[1..], serial + first.resolverCalls);
      }
    }
  }

  /** Every connected instance is one of the cached instances, and distinct definitions
      never share a cached instance. */
  lemma RunningAreResolved(reg: Registry)
    requires Consistent(reg)
    ensures reg.running.Keys <= reg.resolved.Values
    ensures forall p, q :: p in reg.resolved && q in reg.resolved && reg.resolved[p] == reg.resolved[q] ==> p == q
  {
    forall s | s in reg.running
      ensures s in reg.resolved.Values
    {
      assert CachedWhenConnected(reg, s);
    }
    forall p, q | p in reg.resolved && q in reg.resolved && reg.resolved[p] == reg.resolved[q]
      ensures p == q
    {
      assert OwnKey(reg, p) && OwnKey(reg, q);
    }
  }

  /** Running a definition twice without pausing or stopping in between: the second call
      throws "already running", changes nothing and does not call the injector. */
  lemma DoubleRunFails(reg: Registry, saga: Provider, serial: nat)
    requires Consistent(reg) && StatusOf(reg, saga) != Running
    ensures var first := Run(reg, saga, serial);
            var second := Run(first.reg, saga, serial + first.resolverCalls);
            first.outcome == Pass && second.outcome == Fail(AlreadyRunning)
            && second.reg == first.reg && second.resolverCalls == 0
  {
    RunKeepsConsistent(reg, saga, serial);
  }

  /** run, pause, run on a never-resolved definition: every call succeeds, the injector is
      called once in all, and the second run reconnects the same instance. */
  lemma RunPauseRunResolvesOnce(reg: Registry, saga: Provider, serial: nat)
    requires Consistent(reg) && StatusOf(reg, saga) == Unresolved
    ensures var s1 := Run(reg, saga, serial);
            var s2 := Pause(s1.reg, saga);
            var s3 := Run(s2.reg, saga, serial + s1.resolverCalls);
            && s1.outcome == Pass && s2.outcome == Pass && s3.outcome == Pass
            && s1.resolverCalls + s2.resolverCalls + s3.resolverCalls == 1
            && s3.reg.resolved[saga] == s1.reg.resolved[saga]
            && StatusOf(s3.reg, saga) == Running
  {
    RunKeepsConsistent(reg, saga, serial);
  }

  /** run, stop, run on a never-resolved definition: every call succeeds, the injector is
      called twice, and the second run connects a newly built instance. */
  lemma RunStopRunResolvesTwice(reg: Registry, saga: Provider, serial: nat)
    requires Consistent(reg) && StatusOf(reg, saga) == Unresolved
    ensures var s1 := Run(reg, saga, serial);
            var s2 := Stop(s1.reg, saga);
            var s3 := Run(s2.reg, saga, serial + s1.resolverCalls);
            && s1.outcome == Pass && s2.outcome == Pass && s3.outcome == Pass
            && s1.resolverCalls + s2.resolverCalls + s3.resolverCalls == 2
            && s3.reg.resolved[saga] != s1.reg.resolved[saga]
            && StatusOf(s3.reg, saga) == Running
  {
    RunKeepsConsistent(reg, saga, serial);
    var s1 := Run(reg, saga, serial);
    StopKeepsConsistent(s1.reg, saga);
    RunKeepsConsistent(Stop(s1.reg, saga).reg, saga, serial + 1);
  }

  /** A paused definition cannot be stopped: stop throws pause's "already paused" and the
      cached instance stays, so the next run does not call the injector. */
  lemma PausedCannotBeStopped(reg: Registry, saga: Provider, serial: nat)
    requires StatusOf(reg, saga) == Paused
    ensures Stop(reg, saga) == Step(reg, Fail(AlreadyPaused), 0)
    ensures Run(Stop(reg, saga).reg, saga, serial).resolverCalls == 0
  {
  }

  /** `_run` leaves its own definition running, whether it connects it or throws, and a
      running definition stays running. */
  lemma RunLeavesRunning(reg: Registry, saga: Provider, serial: nat, q: Provider)
    ensures StatusOf(Run(reg, saga, serial).reg, saga) == Running
    ensures StatusOf(reg, q) == Running ==> StatusOf(Run(reg, saga, serial).reg, q) == Running
  {
    var s := Run(reg, saga, serial);
    if q != saga && StatusOf(reg, q) == Running {
      assert s.reg.resolved[q] == reg.resolved[q];
    }
  }

  /** Bootstrapping a list in which some definition is already running ends in "already
      running". */
  lemma {:induction false} RunAllMeetsRunning(reg: Registry, sagas: seq<Provider>, k: nat, serial: nat)
    requires k < |sagas| && StatusOf(reg, sagas[k]) == Running
    ensures RunAll(reg, sagas, serial).outcome == Fail(AlreadyRunning)
    decreases |sagas|
  {
    var first := Run(reg, sagas[0], serial);
    if first.outcome.Pass? {
      RunLeavesRunning(reg, sagas[0], serial, sagas[k]);
      assert k != 0;
      assert sagas[1..][k - 1] == sagas[k];
      RunAllMeetsRunning(first.reg, sagas[1..], k - 1, serial + first.resolverCalls);
    }
  }

  /** Bootstrapping a list that holds the same definition twice ends in "already running",
      whatever the state it starts from. */
  lemma {:induction false} DuplicateBootstrapFails(reg: Registry, sagas: seq<Provider>, i: nat, j: nat, serial: nat)
    requires i < j < |sagas| && sagas[i] == sagas[j]
    ensures RunAll(reg, sagas, serial).outcome == Fail(AlreadyRunning)
    decreases |sagas|
  {
    var first := Run(reg, sagas[0], serial);
    if first.outcome.Pass? {
      var tail := sagas[1..];
      assert tail[j - 1] == sagas[j];
      if i == 0 {
        RunLeavesRunning(reg, sagas[0], serial, sagas[0]);
        RunAllMeetsRunning(first.reg, tail, j - 1, serial + first.resolverCalls);
      } else {
        assert tail[i - 1] == sagas[i];
        DuplicateBootstrapFails(first.reg, tail, i - 1, j - 1, serial + first.resolverCalls);
      }
    }
  }

  /** Bootstrapping distinct, never-resolved definitions runs every one of them: no call
      throws, the injector is called once per definition, each ends up connected and no
      other definition changes status. */
  lemma {:induction false} RunAllConnectsEach(reg: Registry, sagas: seq<Provider>, serial: nat)
    requires Consistent(reg)
    requires forall i, j :: 0 <= i < j < |sagas| ==> sagas[i] != sagas[j]
    requires forall i :: 0 <= i < |sagas| ==> StatusOf(reg, sagas[i]) == Unresolved
    ensures RunAll(reg, sagas, serial).outcome == Pass
    ensures RunAll(reg, sagas, serial).resolverCalls == |sagas|
    ensures forall i :: 0 <= i < |sagas| ==> StatusOf(RunAll(reg, sagas, serial).reg, sagas[i]) == Running
    ensures forall q :: q !in sagas ==> Kept(reg, RunAll(reg, sagas, serial).reg, q)
    decreases |sagas|
  {
    if sagas != [] {
      var x := sagas[0];
      var tail := sagas[1..];
      RunKeepsConsistent(reg, x, serial);
      var first := Run(reg, x, serial);
      assert x !in tail by {
        forall i | 0 <= i < |tail| ensures tail[i] != x {
          assert sagas[i + 1] != sagas[0];
        }
      }
      forall i | 0 <= i < |tail|
        ensures StatusOf(first.reg, tail[i]) == Unresolved
      {
        assert tail[i] == sagas[i + 1] && tail[i] != x;
        OtherKept(reg, first.reg, x, tail[i]);
      }
      forall i, j | 0 <= i < j < |tail| ensures tail[i] != tail[j] {
        assert tail[i] == sagas[i + 1] && tail[j] == sagas[j + 1];
      }
      RunAllConnectsEach(first.reg, tail, serial + first.resolverCalls);
      var rest := RunAll(first.reg, tail, serial + first.resolverCalls);
      assert StatusOf(rest.reg, x) == Running;
      forall i | 0 <= i < |sagas|
        ensures StatusOf(rest.reg, sagas[i]) == Running
      {
        if i > 0 {
          assert sagas[i] == tail[i - 1];
        }
      }
      forall q | q !in sagas
        ensures Kept(reg, rest.reg, q)
      {
        assert q != x && q !in tail;
        OtherKept(reg, first.reg, x, q);
        KeptTransitive(reg, first.reg, rest.reg, q);
      }
    }
  }
}
