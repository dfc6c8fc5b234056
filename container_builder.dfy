/** ContainerBuilder.java: the binding table a container is made from. Every
    registration funnels through `Register`, which refuses a builder that
    has already created its container and a key that is already mapped,
    wraps the factory for its scope, and remembers SINGLETON bindings so
    that `Create` can load them eagerly. */
module Builder {
  import opened Errors
  import opened Construction
  import opened Internal
  import opened Scoping
  import opened Injection

  /** The model's class ids of `Container` and `java.util.logging.Logger`. */
  const CONTAINER_TYPE: ClassId := 0
  const LOGGER_TYPE: ClassId := 1

  /** One entry of `singletonFactories`: the wrapper that creates the scoped
      factory of `key` under an external context with no member. */
  datatype EagerSingleton = EagerSingleton(key: Key, scoped: InternalFactory)

  function SingletonKeys(ss: seq<EagerSingleton>): (r: seq<Key>)
    ensures |r| == |ss| && forall i :: 0 <= i < |ss| ==> r[i] == ss[i].key
  {
    seq(|ss|, i requires 0 <= i < |ss| => ss[i].key)
  }

  /** The factory a scope annotation selects: `@Scoped(s)`, else DEFAULT. */
  function ScopeOf(scoped: Option<Scope>): (r: Scope)
    ensures scoped.None? ==> r == DEFAULT
    ensures scoped.Some? ==> r == scoped.value
  {
    if scoped.None? then DEFAULT else scoped.value
  }

  class ContainerBuilder {
    var factories: map<Key, InternalFactory>
    var singletonFactories: seq<EagerSingleton>
    var staticInjections: seq<ClassId>
    var created: bool
    /** Every factory registered so far, scope wrappers and wrapped ones. */
    ghost var Factories: set<InternalFactory>

    /** The table only refers to registered factories, a wrapper's inner
        factory is registered too, every eager singleton is the SINGLETON
        wrapper still mapped under its key, and before `create` no factory
        has run. */
    ghost predicate Valid()
      reads this, Factories
    {
      && factories.Values <= Factories
      && (forall f :: f in Factories && f.kind.Memoized? ==> f.kind.inner in Factories)
      && (forall f :: f in Factories && f.kind.StrategyScoped? ==> f.kind.inner in Factories)
      && (forall i :: 0 <= i < |singletonFactories| ==>
            && singletonFactories[i].key in factories
            && factories[singletonFactories[i].key] == singletonFactories[i].scoped
            && singletonFactories[i].scoped.kind.Memoized? && !singletonFactories[i].scoped.kind.perThread)
      && (!created ==> forall f :: f in Factories ==> f.instance == Null && f.cachedConstructor.None?)
    }

    /** A new builder maps the container itself and the logger under the
        default name. */
    constructor ()
      ensures Valid() && !created && singletonFactories == [] && staticInjections == []
      ensures factories.Keys == {Key(CONTAINER_TYPE, DEFAULT_NAME), Key(LOGGER_TYPE, DEFAULT_NAME)}
      ensures factories[Key(CONTAINER_TYPE, DEFAULT_NAME)].kind == ContainerFactory
      ensures factories[Key(LOGGER_TYPE, DEFAULT_NAME)].kind == LoggerFactory
    {
      var containerFactory := new InternalFactory(ContainerFactory);
      var loggerFactory := new InternalFactory(LoggerFactory);
      factories := map[Key(CONTAINER_TYPE, DEFAULT_NAME) := containerFactory,
                       Key(LOGGER_TYPE, DEFAULT_NAME) := loggerFactory];
      singletonFactories := [];
      staticInjections := [];
      created := false;
      Factories := {containerFactory, loggerFactory};
    }

    /** The funnel every registration goes through: `ensureNotCreated`, then
        `checkKey`, then the scoped factory goes into the table, and a
        SINGLETON binding is also queued for eager loading. */
    method Register(key: Key, factory: InternalFactory, scope: Scope) returns (r: Outcome<()>)
      requires Valid() && (factory.kind.ImplementationFactory? || factory.kind.ConstantFactory?)
      requires factory.instance == Null && factory.cachedConstructor.None?
      modifies this
      ensures Valid() && created == old(created) && staticInjections == old(staticInjections)
      ensures old(created) ==> r == Throw(IllegalState(AlreadyCreated)) && unchanged(this)
      ensures !old(created) && key in old(factories) ==>
                r == Throw(DependencyException(AlreadyMapped(key))) && unchanged(this)
      ensures !old(created) && key !in old(factories) ==>
                && r.Ok?
                && factories.Keys == old(factories).Keys + {key}
                && (forall k :: k in old(factories) ==> factories[k] == old(factories)[k])
                && (scope == DEFAULT ==> factories[key] == factory)
                && (scope != DEFAULT ==> fresh(factories[key]) && factories[key].kind == WrapperKind(scope, key.typ, key.name, factory))
                && (scope == SINGLETON ==> singletonFactories == old(singletonFactories) + [EagerSingleton(key, factories[key])])
                && (scope != SINGLETON ==> singletonFactories == old(singletonFactories))
      ensures r.Throw? ==> unchanged(this)
    {
      if created {
        return Throw(IllegalState(AlreadyCreated));
      }
      if key in factories {
        return Throw(DependencyException(AlreadyMapped(key)));
      }
      var scopedFactory := ScopeFactory(scope, key.typ, key.name, factory);
      factories := factories[key := scopedFactory];
      Factories := Factories + {factory, scopedFactory};
      if scope == SINGLETON {
        singletonFactories := singletonFactories + [EagerSingleton(key, scopedFactory)];
      }
      r := Ok(());
    }

    /** `factory(type, name, implementation, scope)`: a binding that
        constructs `impl` through its constructor injector. */
    method FactoryScoped(typ: ClassId, name: string, impl: ClassId, scope: Scope) returns (r: Outcome<()>)
      requires Valid()
      modifies this
      ensures Valid() && created == old(created) && staticInjections == old(staticInjections)
      ensures old(created) ==> r == Throw(IllegalState(AlreadyCreated)) && unchanged(this)
      ensures !old(created) && Key(typ, name) in old(factories) ==>
                r == Throw(DependencyException(AlreadyMapped(Key(typ, name)))) && unchanged(this)
      ensures !old(created) && Key(typ, name) !in old(factories) ==>
                && r.Ok?
                && factories.Keys == old(factories).Keys + {Key(typ, name)}
                && (forall k :: k in old(factories) ==> factories[k] == old(factories)[k])
                && fresh(factories[Key(typ, name)])
                && (scope == DEFAULT ==> factories[Key(typ, name)].kind == ImplementationFactory(typ, name, impl))
                && (scope != DEFAULT ==> && (factories[Key(typ, name)].kind.Memoized? || factories[Key(typ, name)].kind.StrategyScoped?)
                                         && factories[Key(typ, name)].kind.inner.kind == ImplementationFactory(typ, name, impl))
                && (scope == SINGLETON ==> singletonFactories == old(singletonFactories) + [EagerSingleton(Key(typ, name), factories[Key(typ, name)])])
                && (scope != SINGLETON ==> singletonFactories == old(singletonFactories))
    {
      var factory := new InternalFactory(ImplementationFactory(typ, name, impl));
      r := Register(Key(typ, name), factory, scope);
    }

    /** `factory(type, name, implementation)`: the scope comes from the
        implementation's `@Scoped` annotation, DEFAULT without one. */
    method FactoryNamed(typ: ClassId, name: string, impl: ClassId, scoped: Option<Scope>) returns (r: Outcome<()>)
      requires Valid()
      modifies this
      ensures Valid() && created == old(created) && staticInjections == old(staticInjections)
      ensures old(created) ==> r == Throw(IllegalState(AlreadyCreated)) && unchanged(this)
      ensures !old(created) && Key(typ, name) in old(factories) ==>
                r == Throw(DependencyException(AlreadyMapped(Key(typ, name)))) && unchanged(this)
      ensures !old(created) && Key(typ, name) !in old(factories) ==>
                && r.Ok?
                && factories.Keys == old(factories).Keys + {Key(typ, name)}
                && (forall k :: k in old(factories) ==> factories[k] == old(factories)[k])
                && fresh(factories[Key(typ, name)])
                && (ScopeOf(scoped) == DEFAULT ==> factories[Key(typ, name)].kind == ImplementationFactory(typ, name, impl))
                && (ScopeOf(scoped) != DEFAULT ==> && (factories[Key(typ, name)].kind.Memoized? || factories[Key(typ, name)].kind.StrategyScoped?)
                                                   && factories[Key(typ, name)].kind.inner.kind == ImplementationFactory(typ, name, impl))
                && (ScopeOf(scoped) == SINGLETON ==> singletonFactories == old(singletonFactories) + [EagerSingleton(Key(typ, name), factories[Key(typ, name)])])
                && (ScopeOf(scoped) != SINGLETON ==> singletonFactories == old(singletonFactories))
    {
      r := FactoryScoped(typ, name, impl, ScopeOf(scoped));
    }

    /** `factory(type, implementation)`: the same under the default name. */
    method Factory(typ: ClassId, impl: ClassId, scoped: Option<Scope>) returns (r: Outcome<()>)
      requires Valid()
      modifies this
      ensures Valid() && created == old(created) && staticInjections == old(staticInjections)
      ensures old(created) ==> r == Throw(IllegalState(AlreadyCreated)) && unchanged(this)
      ensures !old(created) && Key(typ, DEFAULT_NAME) in old(factories) ==>
                r == Throw(DependencyException(AlreadyMapped(Key(typ, DEFAULT_NAME)))) && unchanged(this)
      ensures !old(created) && Key(typ, DEFAULT_NAME) !in old(factories) ==>
                && r.Ok?
                && factories.Keys == old(factories).Keys + {Key(typ, DEFAULT_NAME)}
                && (forall k :: k in old(factories) ==> factories[k] == old(factories)[k])
                && fresh(factories[Key(typ, DEFAULT_NAME)])
                && (ScopeOf(scoped) == DEFAULT ==> factories[Key(typ, DEFAULT_NAME)].kind == ImplementationFactory(typ, DEFAULT_NAME, impl))
                && (ScopeOf(scoped) != DEFAULT ==> && (factories[Key(typ, DEFAULT_NAME)].kind.Memoized? || factories[Key(typ, DEFAULT_NAME)].kind.StrategyScoped?)
                                                   && factories[Key(typ, DEFAULT_NAME)].kind.inner.kind == ImplementationFactory(typ, DEFAULT_NAME, impl))
                && (ScopeOf(scoped) == SINGLETON ==> singletonFactories == old(singletonFactories) + [EagerSingleton(Key(typ, DEFAULT_NAME), factories[Key(typ, DEFAULT_NAME)])])
                && (ScopeOf(scoped) != SINGLETON ==> singletonFactories == old(singletonFactories))
    {
      r := FactoryNamed(typ, DEFAULT_NAME, impl, scoped);
    }

    /** `constant(type, name, value)`: a DEFAULT-scoped binding that always
        returns `value`. */
    method Constant(typ: ClassId, name: string, value: Obj) returns (r: Outcome<()>)
      requires Valid()
      modifies this
      ensures Valid() && created == old(created) && singletonFactories == old(singletonFactories) && staticInjections == old(staticInjections)
      ensures old(created) ==> r == Throw(IllegalState(AlreadyCreated)) && unchanged(this)
      ensures !old(created) && Key(typ, name) in old(factories) ==>
                r == Throw(DependencyException(AlreadyMapped(Key(typ, name)))) && unchanged(this)
      ensures !old(created) && Key(typ, name) !in old(factories) ==>
                && r.Ok?
                && factories.Keys == old(factories).Keys + {Key(typ, name)}
                && (forall k :: k in old(factories) ==> factories[k] == old(factories)[k])
                && factories[Key(typ, name)].kind == ConstantFactory(value)
    {
      var factory := new InternalFactory(ConstantFactory(value));
      r := Register(Key(typ, name), factory, DEFAULT);
    }

    /** `injectStatics`: only records the classes, also after `create`. */
    method InjectStatics(types: seq<ClassId>)
      modifies this`staticInjections
      ensures staticInjections == old(staticInjections) + types
    {
      staticInjections := staticInjections + types;
    }

    /** The injectors `getConstructor` supplies fit this table: every bound
        implementation has one, and they only use registered factories. */
    ghost predicate Fits(constructors: map<ClassId, ConstructorInjector>)
      reads this
    {
      && (forall f :: f in Factories && f.kind.ImplementationFactory? ==> f.kind.impl in constructors)
      && (forall ci :: ci in constructors.Values ==> ConstructorInjectorUses(ci, Factories))
    }

    /** `create(loadSingletons)`: a one-shot operation that hands the table
        to a new container and, when asked, runs every eager singleton in
        registration order; `ran` lists the keys whose singleton was run.
        The constructor injectors, interface set and thread-local scope
        strategy are what the rest of the program supplies. */
    method Create(loadSingletons: bool, constructors: map<ClassId, ConstructorInjector>,
                  interfaces: set<ClassId>, local: Option<Strategy<Obj>>, fuel: nat)
      returns (r: Outcome<ContainerImpl>, ghost ran: seq<Key>)
      requires Valid() && Fits(constructors)
      modifies this`created, Factories
      ensures created && Valid()
      ensures old(created) ==> r == Throw(IllegalState(AlreadyCreated)) && ran == [] && unchanged(Factories)
      ensures !old(created) && !loadSingletons ==> r.Ok? && ran == [] && unchanged(Factories)
      ensures !old(created) && loadSingletons && r.Ok? ==> ran == SingletonKeys(singletonFactories)
      ensures !old(created) && loadSingletons && r.Throw? ==>
                0 < |ran| <= |singletonFactories| && ran == SingletonKeys(singletonFactories[..|ran|])
      ensures !old(created) && loadSingletons && r.Ok? ==> forall i :: 0 <= i < |singletonFactories| ==> Loaded(singletonFactories[i])
      ensures !old(created) && loadSingletons && r.Throw? ==> forall i :: 0 <= i < |ran| - 1 ==> Loaded(singletonFactories[i])
      ensures r.Ok? ==> && fresh(r.value) && r.value.Valid()
                        && r.value.factories == factories && r.value.constructors == constructors
                        && r.value.interfaces == interfaces && r.value.localScopeStrategy == local
    {
      ran := [];
      if created {
        return Throw(IllegalState(AlreadyCreated)), ran;
      }
      created := true;
      var container := new ContainerImpl(factories, constructors, interfaces, local, Factories);
      assert container.Valid();
      if loadSingletons {
        var ctx := new InternalContext<ContainerImpl, ConstructorInjector, Instance, Strategy<Obj>, ExternalContext>(container);
        var loaded;
        loaded, ran := LoadSingletons(ctx, singletonFactories, fuel);
        if loaded.Throw? {
          return Throw(loaded.ex), ran;
        }
      }
      r := Ok(container);
    }
  }

  /** An eager singleton has run: its SINGLETON wrapper stores a value its
      binding produces, so never `null` for an implementation. */
  ghost predicate Loaded(s: EagerSingleton)
    reads s.scoped
  {
    s.scoped.kind.Memoized? ==> Yields(s.scoped.kind.inner, s.scoped.instance)
  }

  /** The callable `create(true)` runs in a fresh context: every eager
      singleton in order, stopping at the first that throws; `ran` lists
      the keys whose singleton was run. */
  method LoadSingletons(ctx: Context, singletons: seq<EagerSingleton>, fuel: nat)
    returns (r: Outcome<()>, ghost ran: seq<Key>)
    requires Ready(ctx) && ctx.externalContext.None?
    requires forall i :: 0 <= i < |singletons| ==> singletons[i].scoped in ctx.container.Factories
    modifies ctx.Repr, ctx.container.Factories
    ensures Ready(ctx) && fresh(ctx.Repr - old(ctx.Repr)) && ctx.externalContext.None?
    ensures r.Ok? ==> ran == SingletonKeys(singletons)
    ensures r.Throw? ==> 0 < |ran| <= |singletons| && ran == SingletonKeys(singletons[..|ran|])
    ensures r.Ok? ==> forall i :: 0 <= i < |singletons| ==> Loaded(singletons[i])
    ensures r.Throw? ==> forall i :: 0 <= i < |ran| - 1 ==> Loaded(singletons[i])
  {
    ran := [];
    for i := 0 to |singletons|
      invariant Ready(ctx) && ctx.externalContext.None? && fresh(ctx.Repr - old(ctx.Repr))
      invariant ran == SingletonKeys(singletons[..i])
      invariant forall j :: 0 <= j < i ==> Loaded(singletons[j])
    {
      ran := ran + [singletons[i].key];
      assert ran == SingletonKeys(singletons[..i + 1]);
      label Before:
      var made := EagerCreate(ctx, singletons[i], fuel);
      forall j | 0 <= j < i
        ensures Loaded(singletons[j])
      {
        assert old@Before(Loaded(singletons[j]));
      }
      if made.Throw? {
        return Throw(made.ex), ran;
      }
    }
    assert singletons[..|singletons|] == singletons;
    r := Ok(());
  }

  /** The eager-singleton wrapper: creates the scoped factory with an
      external context that names only the key, and resets the external
      context to `null` whatever the outcome. */
  method EagerCreate(ctx: Context, s: EagerSingleton, fuel: nat) returns (r: Outcome<Obj>)
    requires Ready(ctx) && s.scoped in ctx.container.Factories
    modifies ctx.Repr, ctx.container.Factories
    ensures Ready(ctx) && ctx.Evolves() && fresh(ctx.Repr - old(ctx.Repr)) && ctx.container.KeepsCaches()
    ensures ctx.externalContext.None?
    ensures s.scoped.kind.Memoized? && r.Ok? ==> s.scoped.instance == r.value
    ensures s.scoped.kind.Memoized? && old(s.scoped.instance) != Null ==> r == Ok(old(s.scoped.instance))
    ensures s.scoped.kind.Memoized? && r.Ok? ==> Yields(s.scoped.kind.inner, s.scoped.instance)
  {
    ctx.SetExternalContext(Some(ExternalContext(None, s.key)));
    r := Create(ctx, s.scoped, fuel);
    ctx.SetExternalContext(None);
  }
}
