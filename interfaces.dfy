/**
 * The values the saga runner and its helpers work on: the store action, the
 * `{state, action}` iteration every saga observes (lib/interfaces.ts), and the
 * dependency-injection vocabulary the runner keys its tables on (a `Provider`
 * built around an `OpaqueToken`).
 */
module Interfaces {

  /** A store action; `actionType` is the action's `type` field. */
  datatype Action<P> = Action(actionType: string, payload: P)

  /** One item of the saga stream: the latest store state and the action just dispatched. */
  datatype SagaIteration<S, P> = SagaIteration(state: S, action: Action<P>)

  /** A saga factory, seen through its declared parameter count (`Function.length`). */
  datatype SagaFactory = SagaFactory(length: nat)

  /** A dependency listed in a provider's `deps`. */
  datatype Dependency = Dependency(name: string)

  /** An injection token; two tokens are the same only if they are the same object. */
  class OpaqueToken {
    const description: string

    constructor (description: string)
      ensures this.description == description
    {
      this.description := description;
    }
  }

  /** A saga definition: a provider for a fresh token, built by `useFactory` from `deps`.
      The runner compares definitions by identity. */
  class Provider {
    const token: OpaqueToken
    const deps: seq<Dependency>
    const useFactory: SagaFactory

    constructor (token: OpaqueToken, deps: seq<Dependency>, useFactory: SagaFactory)
      ensures this.token == token && this.deps == deps && this.useFactory == useFactory
    {
      this.token := token;
      this.deps := deps;
      this.useFactory := useFactory;
    }
  }

  /** A resolved saga instance: the `serial`-th instance its injector built, from `definition`. */
  datatype Saga = Saga(definition: Provider, serial: nat)

  /** The handle of one connection of a saga to the iteration stream. */
  datatype Subscription = Subscription(serial: nat)
}
