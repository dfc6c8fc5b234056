/** The state of one top-level injection call (InternalContext.java): one
    construction context per constructor injector, created on first use, the
    cached scope strategy and the external context of the member being
    injected. The class is generic in the container `C`, the key `K`
    (a constructor injector), the instance type `T`, the strategy `S` and the
    external-context type `E`. */
module Internal {
  import opened Errors
  import opened Construction

  class InternalContext<C, K(==), T, S, E> {
    const container: C
    var constructionContexts: map<K, ConstructionContext<T>>
    var scopeStrategy: Option<S>
    var externalContext: Option<E>
    /** This object, its construction contexts and their handlers. */
    ghost var Repr: set<object>

    ghost predicate Valid()
      reads this, constructionContexts.Values
    {
      && this in Repr
      && forall k :: k in constructionContexts ==>
           && constructionContexts[k] in Repr
           && constructionContexts[k].Valid()
           && forall h :: h in constructionContexts[k].Handlers() ==> h in Repr
    }

    /** How any resolution call may change the construction contexts: the
        table only grows, and a context keeps its identity, `constructing`
        flag and current reference. */
    twostate predicate Evolves()
      reads this, constructionContexts.Values
    {
      && old(constructionContexts).Keys <= constructionContexts.Keys
      && forall k :: k in old(constructionContexts) ==>
           && constructionContexts[k] == old(constructionContexts)[k]
           && constructionContexts[k].constructing == old(constructionContexts[k].constructing)
           && constructionContexts[k].currentReference == old(constructionContexts[k].currentReference)
    }

    constructor (container: C)
      ensures this.container == container
      ensures constructionContexts == map[] && scopeStrategy.None? && externalContext.None?
      ensures Valid() && Repr == {this}
    {
      this.container := container;
      constructionContexts := map[];
      scopeStrategy := None;
      externalContext := None;
      Repr := {this};
    }

    /** The strategy is taken from `local` (the container's thread-local
        strategy) while none is cached; a missing strategy is an error. */
    method GetScopeStrategy(local: Option<S>) returns (r: Outcome<S>)
      modifies this`scopeStrategy
      ensures old(scopeStrategy).Some? ==> scopeStrategy == old(scopeStrategy) && r == Ok(scopeStrategy.value)
      ensures old(scopeStrategy).None? ==> scopeStrategy == local
      ensures old(scopeStrategy).None? && local.None? ==> r == Throw(IllegalState(ScopeStrategyNotSet))
      ensures old(scopeStrategy).None? && local.Some? ==> r == Ok(local.value)
    {
      if scopeStrategy.None? {
        scopeStrategy := local;
        if scopeStrategy.None? {
          return Throw(IllegalState(ScopeStrategyNotSet));
        }
      }
      r := Ok(scopeStrategy.value);
    }

    method GetExternalContext() returns (e: Option<E>)
      ensures e == externalContext
    {
      e := externalContext;
    }

    method SetExternalContext(e: Option<E>)
      modifies this`externalContext
      ensures externalContext == e
    {
      externalContext := e;
    }

    /** The context for `key`, inserting a fresh idle one on first use. */
    method GetConstructionContext(key: K) returns (cc: ConstructionContext<T>)
      requires Valid()
      modifies this`constructionContexts, this`Repr
      ensures Valid() && Evolves() && fresh(Repr - old(Repr))
      ensures key in constructionContexts && cc == constructionContexts[key]
      ensures key in old(constructionContexts) ==>
                constructionContexts == old(constructionContexts) && Repr == old(Repr)
      ensures key !in old(constructionContexts) ==>
                && fresh(cc) && cc.Idle()
                && constructionContexts == old(constructionContexts)[key := cc]
                && Repr == old(Repr) + {cc}
    {
      if key in constructionContexts {
        cc := constructionContexts[key];
      } else {
        cc := new ConstructionContext<T>();
        constructionContexts := constructionContexts[key := cc];
        Repr := Repr + {cc};
      }
    }
  }
}
