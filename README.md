# A verified model of the guice-copy injection core

This project is a Dafny model of the core of a small Guice 1.0 clone (the
`org.garry.gucie_clone.inject` package). It models five parts:

- **Cycle-breaking construction** (module `Construction`, `construction_context.dfy`;
  module `Internal`, `internal_context.dfy`). Each binding has a
  per-call-tree construction context with a `constructing` flag, a current
  reference and a list of delegating invocation handlers. Proxies here are
  plain handler objects.
- **Constructor selection, injector assembly and the resolution interpreter**
  (module `Injection`, `container_impl.dfy`).
  - `findConstructorIn`, `getParametersInjectors`, `addInjectorsForMembers`,
    and the field and method injectors.
  - `construct`, with its try/finally bookkeeping.
  - `InternalFactory.create` for every kind of factory the container builds:
    container, logger, constant, implementation, and the scope wrappers.
  - Reflection is replaced by datatypes for classes, constructors, fields,
    methods and annotations. An `Instance` class records the constructor
    arguments it received, the fields injection set and the methods
    injection called.
- **Scopes** (module `Scoping`, `scope.dfy`, together with
  `Injection.ScopeFactory` and `Injection.Create*`). DEFAULT passes the
  factory through. SINGLETON and THREAD memoise one instance.
  REQUEST, SESSION and WIZARD ask a user-supplied strategy.
- **The binding table builder** (module `Builder`, `container_builder.dfy`).
  It provides the pre-registered container and logger keys, the duplicate-key
  and already-created checks, the scope wrapping, the ordered eager
  singletons and `create`.
- **The reference map and lazy cache** (module `RefMap`,
  `reference_map.dfy`; module `RefCache`, `reference_cache.dfy`).
  - A map whose keys and values may be held strongly, softly or weakly.
    Soft and weak keys compare by identity.
  - The three put strategies, `entrySet` skipping reclaimed entries, and
    the cleanup run when a reference is cleared.
  - `ReferenceCache.internalCreate`, with its per-key pending marker and
    its nested-creation check.

Shared vocabulary is in module `Errors` (`errors.dfy`): options, outcomes
(a value or a thrown exception) and the exception classes.

Every Java exception path is an `Outcome` value, not a precondition.
Garbage collection is an explicit `Reclaim` step followed by
`FinalizeReferent`. Resolution is mutually recursive (factories call
constructors, which call factories). A `fuel` parameter bounds its depth.
An exhausted bound ends in the model-only error `OutOfFuel`, which is
classified as a `java.lang.Error`.

## Model

| member | source | states |
|---|---|---|
| Errors.WrapException | src/main/java/org/garry/gucie_clone/inject/Scope.java:88-90 | An `Error` passes through unchanged; any other exception comes back inside a `RuntimeException`, so what leaves is always unchecked or an error. |
| Construction.Handler.constructor | src/main/java/org/garry/gucie_clone/inject/ConstructionContext.java:74-76 | A new handler has no delegate. |
| Construction.Handler.SetDelegate | src/main/java/org/garry/gucie_clone/inject/ConstructionContext.java:97-99 | The handler's delegate becomes the given instance. |
| Construction.Handler.Invoke | src/main/java/org/garry/gucie_clone/inject/ConstructionContext.java:79-95 | Without a delegate every call fails with `IllegalStateException`. With one, the call's result is returned, an exception thrown by the target is rethrown as it is, and an access or argument failure comes back inside a `RuntimeException`. |
| Construction.ConstructionContext.constructor | src/main/java/org/garry/gucie_clone/inject/ConstructionContext.java:15-21 | A new context is idle: not constructing, no current reference, no handler list. |
| Construction.ConstructionContext.GetCurrentReference | src/main/java/org/garry/gucie_clone/inject/ConstructionContext.java:23-25 | Returns the current reference. |
| Construction.ConstructionContext.RemoveCurrentReference | src/main/java/org/garry/gucie_clone/inject/ConstructionContext.java:27-29 | Afterwards there is no current reference. |
| Construction.ConstructionContext.SetCurrentReference | src/main/java/org/garry/gucie_clone/inject/ConstructionContext.java:31-33 | Afterwards the current reference is the given instance, which `GetCurrentReference` then returns. |
| Construction.ConstructionContext.IsConstructing | src/main/java/org/garry/gucie_clone/inject/ConstructionContext.java:35-37 | Returns the `constructing` flag. |
| Construction.ConstructionContext.StartConstructing | src/main/java/org/garry/gucie_clone/inject/ConstructionContext.java:39-41 | Afterwards the context is constructing. |
| Construction.ConstructionContext.FinishConstruction | src/main/java/org/garry/gucie_clone/inject/ConstructionContext.java:43-46 | Afterwards the context is not constructing and has no handler list. The dropped list is exactly the handlers issued before the call. |
| Construction.ConstructionContext.CreateProxy | src/main/java/org/garry/gucie_clone/inject/ConstructionContext.java:48-64 | A non-interface type fails with `DependencyException` and leaves the handler list as it was. An interface type gets one fresh handler without a delegate, appended to the earlier handlers (an absent list counts as empty). |
| Construction.ConstructionContext.SetProxyDelegates | src/main/java/org/garry/gucie_clone/inject/ConstructionContext.java:66-72 | Every issued handler gets the instance as its delegate. With no handlers it changes nothing. |
| Internal.InternalContext.constructor | src/main/java/org/garry/gucie_clone/inject/InternalContext.java:23-25 | A new context holds the container, no construction contexts, no cached strategy and no external context. |
| Internal.InternalContext.GetScopeStrategy | src/main/java/org/garry/gucie_clone/inject/InternalContext.java:35-46 | A cached strategy is returned and kept. Otherwise the thread-local strategy is cached and returned. When neither exists the call fails with `IllegalStateException`. |
| Internal.InternalContext.GetExternalContext | src/main/java/org/garry/gucie_clone/inject/InternalContext.java:48-50 | Returns the external context last set. |
| Internal.InternalContext.SetExternalContext | src/main/java/org/garry/gucie_clone/inject/InternalContext.java:52-54 | Afterwards the external context is the given one. |
| Internal.InternalContext.GetConstructionContext | src/main/java/org/garry/gucie_clone/inject/InternalContext.java:56-65 | A key already present returns its context and changes nothing, so two calls with one key give the same object. A new key inserts one fresh idle context and leaves the other keys' entries as they were. |
| Injection.Instance.constructor | src/main/java/org/garry/gucie_clone/inject/ContainerImpl.java:279 | A new instance holds its class and constructor arguments, with no fields set and no methods called. |
| Injection.InternalFactory.constructor | src/main/java/org/garry/gucie_clone/inject/ContainerBuilder.java:151-162 | A new factory has its kind, no memoised instance and no fetched constructor injector. |
| Injection.ConstructorInjector.constructor | src/main/java/org/garry/gucie_clone/inject/ContainerImpl.java:204-209 | The injector holds its implementation, member injectors, chosen constructor and parameter injectors. |
| Injection.ContainerImpl.constructor | src/main/java/org/garry/gucie_clone/inject/ContainerImpl.java:12-14 | A new container holds the given factory table; the model also gives it the constructor injectors, the interface set and the thread-local scope strategy. |
| Injection.ContainerImpl.GetFactory | src/main/java/org/garry/gucie_clone/inject/ContainerImpl.java:107-109 | Finds a factory exactly when the key is in the table; the one found is the key's. |
| Injection.FindInject | src/main/java/org/garry/gucie_clone/inject/ContainerImpl.java:195-202 | Absent exactly when no annotation is `@Inject`; otherwise it is the `@Inject` at the first such position. |
| Injection.AnnotatedCountPrefix | src/main/java/org/garry/gucie_clone/inject/ContainerImpl.java:235-243 | A prefix of the constructors has no more `@Inject` constructors than the whole list. |
| Injection.AnnotatedUnique | src/main/java/org/garry/gucie_clone/inject/ContainerImpl.java:235-243 | With exactly one `@Inject` constructor, any two annotated positions are the same. |
| Injection.AnnotatedPositive | src/main/java/org/garry/gucie_clone/inject/ContainerImpl.java:235-243 | An annotated constructor at some position means at least one `@Inject` constructor. |
| Injection.AnnotatedNone | src/main/java/org/garry/gucie_clone/inject/ContainerImpl.java:244-250 | With no `@Inject` constructors, no constructor carries `@Inject`. |
| Injection.AnnotatedMember | src/main/java/org/garry/gucie_clone/inject/ContainerImpl.java:235-243 | With exactly one `@Inject` constructor, any two annotated constructors in the list are the same one, so the constructor chosen is the only annotated one. |
| Injection.NoArgConstructor | src/main/java/org/garry/gucie_clone/inject/ContainerImpl.java:249-250 | A found constructor is declared and has no parameters. None is found exactly when every constructor has parameters. |
| Injection.FindConstructorIn | src/main/java/org/garry/gucie_clone/inject/ContainerImpl.java:233-255 | Two or more `@Inject` constructors fail with `DependencyException`, in both directions. Exactly one is chosen. With none, the no-arg constructor is chosen. With neither, the call fails with `DependencyException`. |
| Injection.CreateParameterInjector | src/main/java/org/garry/gucie_clone/inject/ContainerImpl.java:178-188 | Succeeds exactly when the key has a factory. The injector uses that factory and an external context for the member and key. Otherwise the call fails with `MissingDependencyException` for the key. |
| Injection.FirstMissing | src/main/java/org/garry/gucie_clone/inject/ContainerImpl.java:157-169 | The first parameter whose key (its `@Inject` value, else the default name) has no factory; every earlier parameter has one. |
| Injection.ParameterInjectorsOfMeaning | src/main/java/org/garry/gucie_clone/inject/ContainerImpl.java:154-170 | Succeeds exactly when every parameter's key has a factory. It then gives one injector per parameter, in order, for that parameter's key. Otherwise it fails with the first missing key. |
| Injection.GetParametersInjectors | src/main/java/org/garry/gucie_clone/inject/ContainerImpl.java:154-170 | The loop's result is `ParameterInjectorsOf`: one injector per parameter in order, or the first missing dependency. |
| Injection.NewFieldInjector | src/main/java/org/garry/gucie_clone/inject/ContainerImpl.java:79-91 | Succeeds exactly when the field's key has a factory. The injector holds that factory and the field's external context. Otherwise it fails with `MissingDependencyException`. |
| Injection.NewMethodInject | src/main/java/org/garry/gucie_clone/inject/ContainerImpl.java:116-127 | The result is `MethodInjectorOf`: a method without parameters fails with `DependencyException`; otherwise it carries one parameter injector per parameter. |
| Injection.CreateInjector | src/main/java/org/garry/gucie_clone/inject/ContainerImpl.java:28-45 | The injector factory for a field or a method member. |
| Injection.ExtendAppend | src/main/java/org/garry/gucie_clone/inject/ContainerImpl.java:28-45 | Appending member by member builds the same list as appending all at once. |
| Injection.AddInjectorsForMembers | src/main/java/org/garry/gucie_clone/inject/ContainerImpl.java:28-45 | The loop appends the injectors that `MemberInjectors` states to the given list. |
| Injection.MemberInjectorsOk | src/main/java/org/garry/gucie_clone/inject/ContainerImpl.java:31-44 | Assembly succeeds exactly when every `@Inject` member of matching static-ness has its dependencies, or is not `required`. |
| Injection.MemberInjectorsContents | src/main/java/org/garry/gucie_clone/inject/ContainerImpl.java:31-44 | Every injector in the result belongs to an `@Inject` member of matching static-ness. Every such member whose injector could be created contributes one. |
| Injection.NewConstructorInjector | src/main/java/org/garry/gucie_clone/inject/ContainerImpl.java:211-231 | An ambiguous class, or one with neither kind of constructor, fails with `DependencyException`. Without `@Inject` constructors, a no-arg constructor always gives an injector for it, with no parameter injectors. With exactly one `@Inject` constructor, the call succeeds with that constructor exactly when all its parameters resolve, with one parameter injector per parameter. Otherwise the missing dependency becomes a `DependencyException` caused by it. |
| Injection.ScopeFactory | src/main/java/org/garry/gucie_clone/inject/Scope.java:14-146 | DEFAULT returns the factory itself. SINGLETON and THREAD give a fresh memoising wrapper. REQUEST, SESSION and WIZARD give a fresh wrapper that asks `findInRequest`, `findInSession` or `findInWizard` (in that order), with the bound type and name. |
| Injection.Create | src/main/java/org/garry/gucie_clone/inject/Scope.java:14-156 | Per factory kind: the container; the logger for the external context's member, and `NullPointerException` without an external context; the constant. Implementation: the constructor injector is fetched once, and the result is `construct`'s (proxy, current instance or fresh injected instance). SINGLETON/THREAD: a stored instance comes back unchanged; otherwise the inner factory's result is returned and stored. Strategy scope: fails when no strategy is set, otherwise gives the strategy's answer; when it calls the factory, the inner factory's result with exceptions wrapped. |
| Injection.CreateImplementation | src/main/java/org/garry/gucie_clone/inject/ContainerBuilder.java:151-162 | The constructor injector is fetched once and kept for later calls. The result is `construct`'s for the bound type: a proxy when re-entered while constructing, the current instance when re-entered during member injection, and otherwise a fresh, fully injected instance. The only other outcome is the depth-bound error. |
| Injection.CreateMemoized | src/main/java/org/garry/gucie_clone/inject/Scope.java:28-66 | While an instance is stored it is returned and nothing else changes. With nothing stored, the result is what the inner factory delivers (for example a fresh instance of an implementation, or the constant), and that result is stored. After a successful call, the returned value is the stored instance. |
| Injection.CreateScoped | src/main/java/org/garry/gucie_clone/inject/Scope.java:78-146 | No strategy set: fails with `IllegalStateException`. Otherwise returns the strategy's stored value, or the inner factory's result as `toCallable` gives it. When the strategy calls the factory, a value returned is one the inner factory delivers, and a thrown exception is the wrapped form of one it throws. Only unchecked exceptions or errors leave. |
| Injection.Construct | src/main/java/org/garry/gucie_clone/inject/ContainerImpl.java:257-304 | Re-entered while constructing: a proxy for an interface type (a fresh, undelegated handle recorded in the context) and never a new instance; a non-interface type fails with `DependencyException`. Re-entered during member injection: the same instance. First pass: the context ends idle on every path, and a success is a freshly allocated, fully injected instance. |
| Injection.ConstructFirstPass | src/main/java/org/garry/gucie_clone/inject/ContainerImpl.java:274-303 | The context ends idle on every exit path. A constructor that throws makes the call throw. A success is a fresh instance of the implementation with one argument per parameter injector, and every member injector applied. |
| Injection.IssueProxy | src/main/java/org/garry/gucie_clone/inject/ContainerImpl.java:261-265 | A non-interface type fails with `DependencyException` and records no handle. An interface type gets one fresh handle without a delegate, appended to the context's handles. |
| Injection.InjectAsCurrent | src/main/java/org/garry/gucie_clone/inject/ContainerImpl.java:285-302 | The instance is the current reference while its members are injected. The context ends idle whatever happens. On success every injector has been applied. |
| Injection.ConstructInstance | src/main/java/org/garry/gucie_clone/inject/ContainerImpl.java:276-283 | The context ends not constructing and without handles, even on failure. On success, every handle it dropped has the new instance as its delegate. |
| Injection.BuildInstance | src/main/java/org/garry/gucie_clone/inject/ContainerImpl.java:278-280 | On success: a fresh instance whose constructor received one argument per parameter injector, with every handle issued so far pointing to it. A constructor that throws makes the call throw. |
| Injection.GetParameters | src/main/java/org/garry/gucie_clone/inject/ContainerImpl.java:139-150 | No parameter injectors gives `null`; otherwise, on success, an array of the same length. |
| Injection.ParameterInject | src/main/java/org/garry/gucie_clone/inject/ContainerImpl.java:62-70 | Creates under the parameter's external context. A logger is the one for that member, and a constant is its value. |
| Injection.CreateUnder | src/main/java/org/garry/gucie_clone/inject/ContainerImpl.java:62-70 | The previous external context is restored whether or not the factory throws. The factory runs under the member's external context. |
| Injection.InjectMembers | src/main/java/org/garry/gucie_clone/inject/ContainerImpl.java:290-292 | Injectors run in order. Earlier fields and calls are kept. On success every injector has been applied. |
| Injection.InjectOne | src/main/java/org/garry/gucie_clone/inject/ContainerImpl.java:94-104 | A success means the injector's field is set or its method was called. Earlier fields and calls are kept. |
| Injection.InjectField | src/main/java/org/garry/gucie_clone/inject/ContainerImpl.java:94-104 | On success exactly the injected field is added or overwritten and the other fields keep their values. A constant factory always succeeds with that constant. A failure leaves the fields unchanged. |
| Injection.InjectMethod | src/main/java/org/garry/gucie_clone/inject/ContainerImpl.java:130-136 | At most one call is recorded, for this method with one argument per parameter injector. A success records it. A method that throws makes the call throw. Only unchecked exceptions or errors leave. |
| Scoping.StrategyScopeOf | src/main/java/org/garry/gucie_clone/inject/Scope.java:78-146 | REQUEST, SESSION and WIZARD map one to one to `findInRequest`, `findInSession` and `findInWizard`. |
| Scoping.StrategyResult | src/main/java/org/garry/gucie_clone/inject/Scope.java:84-90 | A stored value is returned. Calling the factory returns its result. A thrown exception comes back wrapped in `RuntimeException`. |
| Scoping.StrategyResultUnchecked | src/main/java/org/garry/gucie_clone/inject/Scope.java:88-90 | What a pluggable scope throws is always unchecked or an error. |
| Builder.SingletonKeys | src/main/java/org/garry/gucie_clone/inject/ContainerBuilder.java:77-79 | The keys of the eager singletons, in registration order. |
| Builder.ScopeOf | src/main/java/org/garry/gucie_clone/inject/ContainerBuilder.java:129-132 | No `@Scoped` annotation gives DEFAULT; otherwise the annotated scope. |
| Builder.ContainerBuilder.constructor | src/main/java/org/garry/gucie_clone/inject/ContainerBuilder.java:47-55 | A new builder maps exactly (`Container`, default) to the container factory and (`Logger`, default) to the logger factory. It is not created and has no singletons or static injections. |
| Builder.ContainerBuilder.Register | src/main/java/org/garry/gucie_clone/inject/ContainerBuilder.java:188-221 | After `create`: `IllegalStateException`, with nothing changed. A mapped key: `DependencyException`, with the table unchanged. Otherwise exactly this key is added, holding the scope-wrapped factory, and only SINGLETON appends one eager entry. |
| Builder.ContainerBuilder.FactoryScoped | src/main/java/org/garry/gucie_clone/inject/ContainerBuilder.java:146-178 | The same outcomes as `Register` for a fresh implementation factory. Under DEFAULT it is stored directly; under other scopes it is wrapped. |
| Builder.ContainerBuilder.FactoryNamed | src/main/java/org/garry/gucie_clone/inject/ContainerBuilder.java:127-133 | The scope is the `@Scoped` annotation's, or DEFAULT without one. After `create`: `IllegalStateException`, with nothing changed. A mapped key: `DependencyException`, with nothing changed. Otherwise exactly this key is added and other keys keep their factories. The binding is a fresh implementation factory, stored directly under DEFAULT and inside the scope's wrapper otherwise. Only SINGLETON queues one eager singleton. |
| Builder.ContainerBuilder.Factory | src/main/java/org/garry/gucie_clone/inject/ContainerBuilder.java:109-112 | The same outcomes as `FactoryNamed`, for the key with the default name. |
| Builder.ContainerBuilder.Constant | src/main/java/org/garry/gucie_clone/inject/ContainerBuilder.java:231-253 | A constant binding is registered with DEFAULT scope: it always returns its value and queues no singleton. It has the same created and duplicate-key errors. Only the factory table changes: the `created` flag, the singleton queue and the static-injection list are kept. |
| Builder.ContainerBuilder.InjectStatics | src/main/java/org/garry/gucie_clone/inject/ContainerBuilder.java:334-337 | The classes are appended to the recorded static injections. |
| Builder.ContainerBuilder.Create | src/main/java/org/garry/gucie_clone/inject/ContainerBuilder.java:67-87 | A second `create` fails with `IllegalStateException`. `create(false)` runs no singleton. `create(true)` runs every eager singleton once, in registration order, stopping at the first that throws. On success every eager singleton's wrapper then stores a value its binding yields (an implementation's instance or proxy, the constant, the container, a logger). On failure every singleton before the one that threw is loaded. The container gets the table. |
| Builder.LoadSingletons | src/main/java/org/garry/gucie_clone/inject/ContainerBuilder.java:76-81 | The singletons run in order. On success all have run and each wrapper stores a value its binding yields. On failure a non-empty prefix has run, and all of it except the last is loaded. The external context is null in the end. |
| Builder.EagerCreate | src/main/java/org/garry/gucie_clone/inject/ContainerBuilder.java:196-207 | The external context is null afterwards, even on failure. A memoising scope returns its stored instance. After a success the wrapper stores a value the inner binding yields. |
| RefMap.Deref | src/main/java/org/garry/gucie_clone/inject/util/ReferenceMap.java:302-304 | A strong reference gives its object. A soft or weak reference gives its referent, or `null` exactly when the referent was reclaimed. |
| RefMap.ReferenceEquals | src/main/java/org/garry/gucie_clone/inject/util/ReferenceMap.java:376-390 | A wrapper probe matches a live reference to the same object (identity). A reference probe matches a distinct live reference with the same referent, and always matches itself; a dead one matches only itself. |
| RefMap.Matches | src/main/java/org/garry/gucie_clone/inject/util/ReferenceMap.java:121-123 | A strong key matches by `equals`. A soft or weak key matches only the same live object (identity). A reclaimed reference matches only itself. |
| RefMap.FindIndex | src/main/java/org/garry/gucie_clone/inject/util/ReferenceMap.java:108-113 | The first entry that matches, or the length when none does. |
| RefMap.AtMostOneMatch | src/main/java/org/garry/gucie_clone/inject/util/ReferenceMap.java:121-123 | With unique keys, at most one entry matches a probe. |
| RefMap.FindsMatch | src/main/java/org/garry/gucie_clone/inject/util/ReferenceMap.java:108-113 | With unique keys, lookup finds the single matching entry. |
| RefMap.ReferenceMap.InternalGet | src/main/java/org/garry/gucie_clone/inject/util/ReferenceMap.java:108-113 | The live value of the entry that matches the key, or `None` when no entry matches. A found value belongs to a matching entry. |
| RefMap.ReferenceMap.GetMatching | src/main/java/org/garry/gucie_clone/inject/util/ReferenceMap.java:103-113 | When an entry matches a key, `get` of that key returns that entry's dereferenced value. |
| RefMap.AppendUnique | src/main/java/org/garry/gucie_clone/inject/util/ReferenceMap.java:164-185 | Appending a key that no entry matches keeps the keys unique. |
| RefMap.RemoveAt | src/main/java/org/garry/gucie_clone/inject/util/ReferenceMap.java:188-194 | Removing one entry keeps the keys unique and every other entry. |
| RefMap.FindIndexSame | src/main/java/org/garry/gucie_clone/inject/util/ReferenceMap.java:121-123 | Two probes that agree on every key find the same entry. |
| RefMap.KeyReferenceProbe | src/main/java/org/garry/gucie_clone/inject/util/ReferenceMap.java:147-154 | Lookup through a new key reference finds the same entry as lookup by the key. |
| RefMap.LiveEntries | src/main/java/org/garry/gucie_clone/inject/util/ReferenceMap.java:233-242 | No more entries than the map holds. |
| RefMap.LiveEntriesMeaning | src/main/java/org/garry/gucie_clone/inject/util/ReferenceMap.java:233-253 | A pair is listed exactly when some entry has a live key and a live value for that pair. |
| RefMap.EnsureNotNull | src/main/java/org/garry/gucie_clone/inject/util/ReferenceMap.java:60-72 | Fails with `NullPointerException` exactly when some argument is null. |
| RefMap.ReferenceMap.constructor | src/main/java/org/garry/gucie_clone/inject/util/ReferenceMap.java:49-58 | A new map is empty and keeps its two reference types. |
| RefMap.ReferenceMap.Get | src/main/java/org/garry/gucie_clone/inject/util/ReferenceMap.java:103-113 | A null key fails with `NullPointerException`. A found value is the live value of a matching entry. With no matching entry the result is null. |
| RefMap.ReferenceMap.ContainsKey | src/main/java/org/garry/gucie_clone/inject/util/ReferenceMap.java:85-89 | A null key fails with `NullPointerException`. Otherwise true exactly when some entry matches the key. |
| RefMap.ReferenceMap.ContainsValue | src/main/java/org/garry/gucie_clone/inject/util/ReferenceMap.java:92-100 | A null value fails with `NullPointerException`. Otherwise true exactly when some entry's live value equals it. |
| RefMap.ReferenceMap.EntrySet | src/main/java/org/garry/gucie_clone/inject/util/ReferenceMap.java:233-242 | Exactly the live pairs, skipping entries whose key or value was reclaimed. |
| RefMap.ReferenceMap.ReferenceKey | src/main/java/org/garry/gucie_clone/inject/util/ReferenceMap.java:147-154 | A strong key is used as is. A soft or weak key gets a new reference to it. |
| RefMap.ReferenceMap.ReferenceValue | src/main/java/org/garry/gucie_clone/inject/util/ReferenceMap.java:309-320 | A strong value is used as is. A soft or weak value gets a new reference to it that remembers its key reference. |
| RefMap.ReferenceMap.PutReferences | src/main/java/org/garry/gucie_clone/inject/util/ReferenceMap.java:164-185 | Returns the previous stored value. PUT replaces or appends. REPLACE changes only an existing key. Put-if-absent appends only a new key. The stored key and every other entry are kept. |
| RefMap.ReferenceMap.Execute | src/main/java/org/garry/gucie_clone/inject/util/ReferenceMap.java:130-139 | A null key or value fails with `NullPointerException` and changes nothing. Otherwise it returns the previous live value; when the strategy stores, the key is contained afterwards and `get` returns the value. `get` of every key that does not match this one returns what it returned before. |
| RefMap.ReferenceMap.ExecuteLive | src/main/java/org/garry/gucie_clone/inject/util/ReferenceMap.java:130-139 | For non-null arguments: the previous live value, and the strategy's update at the key's entry. Lookups of every key that does not match this one are unchanged. |
| RefMap.ReferenceMap.Put | src/main/java/org/garry/gucie_clone/inject/util/ReferenceMap.java:126-128 | Returns the previous `get`. Afterwards the key is contained and `get` returns the value while neither is reclaimed. An existing key adds no entry. `get` of every other key is unchanged. |
| RefMap.ReferenceMap.PutAll | src/main/java/org/garry/gucie_clone/inject/util/ReferenceMap.java:197-201 | Fails with `NullPointerException` exactly when some pair holds null. The pairs before the first such pair have been put: each live key is contained, and a lookup gives the value of the last pair for that key while it is live. On success this holds for all pairs. A key that matches none of the pairs put keeps what a lookup of it gave before. |
| RefMap.ReferenceMap.Size | src/main/java/org/garry/gucie_clone/inject/util/ReferenceMap.java:75-77 | At least the number of live entries (stale entries are counted too). |
| RefMap.ReferenceMap.IsEmpty | src/main/java/org/garry/gucie_clone/inject/util/ReferenceMap.java:80-82 | True exactly when the size is zero. |
| RefMap.ReferenceMap.Clear | src/main/java/org/garry/gucie_clone/inject/util/ReferenceMap.java:204-206 | Afterwards the map is empty. |
| RefMap.ReferenceMap.KeySet | src/main/java/org/garry/gucie_clone/inject/util/ReferenceMap.java:209-225 | With strong keys, the stored keys themselves. With soft or weak keys, a `HashSet` of the dereferenced keys: every element is some entry's dereferenced key, every entry's dereferenced key `equals` some element, and no two elements are `equals`. So distinct key objects with equal content appear once, and all reclaimed keys share one `null`. |
| RefMap.ReferenceMap.Values | src/main/java/org/garry/gucie_clone/inject/util/ReferenceMap.java:227-231 | One dereferenced value per entry, null where reclaimed; every non-null one is a value the map holds. |
| RefMap.ReferenceMap.DereferenceCollection | src/main/java/org/garry/gucie_clone/inject/util/ReferenceMap.java:292-298 | Into a list: each reference dereferenced, in order. Into a `HashSet`: no two elements are `equals`, and each dereferenced reference `equals` one of them. Either way every element is some reference's referent or `null`. |
| RefMap.ReferenceMap.Remove | src/main/java/org/garry/gucie_clone/inject/util/ReferenceMap.java:188-194 | A null key fails with `NullPointerException`. Otherwise it returns the old `get`, after which the key is not contained. Exactly the matching entry is removed and others are unchanged. |
| RefMap.ReferenceMap.Reclaim | src/main/java/org/garry/gucie_clone/inject/util/ReferenceMap.java:302-304 | The collector step behind `dereference`: once an object is reclaimed, every soft or weak reference to it reads as `null`, and strong references are unaffected. It stands for the JVM's collector, as described under "## Left out". |
| RefMap.ReferenceMap.FinalizeReferent | src/main/java/org/garry/gucie_clone/inject/util/ReferenceMap.java:337-357 | A key reference removes only its own entry. A value reference removes its entry only while that entry still maps to this very reference. Every entry of other references is kept. |
| RefMap.KeyEqualityScenario | src/main/java/org/garry/gucie_clone/inject/util/ReferenceMap.java:462-471 | Putting key `a`, then looking up an equal but distinct `b`: a strong map finds the value, a weak map finds nothing. |
| RefMap.NewReferenceMap | src/main/java/org/garry/gucie_clone/inject/util/ReferenceMap.java:49-58 | A null type fails with `NullPointerException`, and PHANTOM with `IllegalArgumentException`. Otherwise the map is empty with the given types. |
| RefCache.Unwrap | src/main/java/org/garry/gucie_clone/inject/util/ReferenceCache.java:71-78 | A `RuntimeException` or `Error` is rethrown as it is; any other cause is wrapped in `RuntimeException`. |
| RefCache.ReferenceCache.constructor | src/main/java/org/garry/gucie_clone/inject/util/ReferenceCache.java:20-23 | A new cache has no pending markers and no creation in progress. |
| RefCache.ReferenceCache.Call | src/main/java/org/garry/gucie_clone/inject/util/ReferenceCache.java:90-104 | A live value already present is returned without calling `create`. A null from `create` fails with `NullPointerException`. Otherwise `create`'s value or exception is passed on. |
| RefCache.ReferenceCache.RemoveFuture | src/main/java/org/garry/gucie_clone/inject/util/ReferenceCache.java:63 | Removes the key's pending marker, if any. |
| RefCache.ReferenceCache.Compute | src/main/java/org/garry/gucie_clone/inject/util/ReferenceCache.java:56-60 | The outcome is `Call`'s. On success the value is stored under the key; on failure nothing is stored. Every key that does not match this one keeps what a lookup of it gives. |
| RefCache.ReferenceCache.Win | src/main/java/org/garry/gucie_clone/inject/util/ReferenceCache.java:50-64 | On every exit the key's marker is removed and `localFuture` is cleared. A nested creation fails with `IllegalStateException`. Otherwise the outcome is `Call`'s, with exceptions unwrapped. Every key that does not match this one keeps what a lookup of it gives. |
| RefCache.ReferenceCache.Attempt | src/main/java/org/garry/gucie_clone/inject/util/ReferenceCache.java:51-60 | A nested creation fails with `IllegalStateException` and stores nothing. Otherwise it computes and stores. Every key that does not match this one keeps what a lookup of it gives. |
| RefCache.ReferenceCache.Finally | src/main/java/org/garry/gucie_clone/inject/util/ReferenceCache.java:61-64 | Afterwards the marker list is the one from before this creation, and `localFuture` is empty. |
| RefCache.ReferenceCache.InternalCreate | src/main/java/org/garry/gucie_clone/inject/util/ReferenceCache.java:40-80 | A pending marker for the key means waiting on it, with nothing changed. Otherwise, on every exit, the marker is gone and `localFuture` is empty. A nested creation fails with `IllegalStateException`. A success returns and stores `Call`'s value; a failure unwraps its cause. Every key that does not match this one keeps what a lookup of it gives. |
| RefCache.CreatingCache | src/main/java/org/garry/gucie_clone/inject/util/ReferenceCache.java:40-64 | A fresh, empty strong cache in the middle of creating one key: that key's marker is the only pending one, `localFuture` holds it, and `create` returns its key. |
| RefCache.InternalCreateGuarded | src/main/java/org/garry/gucie_clone/inject/util/ReferenceCache.java:40-80 | Corrected: a nested creation is refused for any key and leaves the running creation's marker and `localFuture` untouched. Otherwise, as `internalCreate`: a pending marker for the key is joined and nothing is stored. Without one, `create`'s failure is rethrown unwrapped with nothing stored, and its value is returned and, while live, stored under the key. Every key that does not match this one keeps what a lookup of it gives. |
| RefCache.SelfWaitAsWritten | src/main/java/org/garry/gucie_clone/inject/util/ReferenceCache.java:47-67 | As written, a creation nested in one for the same key waits on the running creation's own future. |
| RefCache.SelfWaitGuarded | src/main/java/org/garry/gucie_clone/inject/util/ReferenceCache.java:51-54 | Corrected: the same nested creation is refused with `IllegalStateException`. |
| RefCache.LostGuardAsWritten | src/main/java/org/garry/gucie_clone/inject/util/ReferenceCache.java:61-64 | As written, after one nested creation is refused, the next nested one is computed. |
| RefCache.LostGuardGuarded | src/main/java/org/garry/gucie_clone/inject/util/ReferenceCache.java:51-54 | Corrected: both nested creations are refused. |
| RefCache.NewReferenceCache | src/main/java/org/garry/gucie_clone/inject/util/ReferenceCache.java:20-30 | The checks of `ReferenceMap`'s constructor. A new cache holds the given `create`. |

## Left out

- Concurrency: `synchronized` in SINGLETON, `ThreadLocal` in THREAD and for `localFuture`, and `ConcurrentHashMap`. The model is single-threaded, so THREAD memoises exactly like SINGLETON.
- Waiting for another thread's future (`future.get()` by a losing caller of `internalCreate`): the model returns `Joined(id)` naming the pending computation. The value that computation will produce is left open, and so is `InterruptedException`.
- The JVM's collector and `FinalizableReferenceQueue` with its daemon thread. Reclamation is the explicit `Reclaim` step, kept per map. `Reclaim` does not check that the object is unreachable. Cleanup runs when the caller invokes `FinalizeReferent`.
- Soft and weak references behave the same here. The model does not represent when the collector chooses to clear them.
- `hashCode` and bucket placement: the delegate map is an ordered list of entries searched with Java's `equals` rules. `entrySet` returns that list's live pairs and does not collapse pairs that are equal in content, as a `HashSet` would.
- `ReferenceCache` extends `ReferenceMap` in Java. Here it holds its map as the `store` field.
- `SoftValueReference` declares a method `equal(Object)` (`ReferenceMap.java:341`), not an override of `equals`, so it keeps `Object.equals`, which is identity. Its `finalizeReferent` calls `delegate.remove(keyReference, this)` (`ReferenceMap.java:337-339`), which then removes the entry only while it still maps to this very reference. The weak variant's `equals` override compares by `referenceEquals`, and a cleared reference matches only itself there, so it produces the same result. The model gives both value references that one cleanup, and the unused `equal` method is not modelled.
- REPLACE and put-if-absent are modelled as strategies of `PutReferences` and `Execute`. The source has no public `replace` or `putIfAbsent` that selects them.
- Reflection (`Proxy.newProxyInstance`, `Constructor.newInstance`, `Field.set`, `Method.invoke`, `setAccessible`, annotations) is replaced by datatypes.
- `InstantiationException` and `IllegalAccessException` from `newInstance` are not modelled: declared constructors are taken as accessible and concrete. The throwing case is a constructor whose body throws.
- `Injection.Construct`: `ContainerImpl.getConstructor` is not defined in the source. It is the `constructors` map given to the container.
- `Builder.ContainerBuilder.Create`: several pieces it relies on are not defined in the source, so they become parameters or simplifications:
  - `ContainerImpl.callInContext` is a fresh `InternalContext`;
  - `ContainerImpl.injectStatics` is not run; the classes are only recorded;
  - the thread-local scope strategy (`localScopeStrategy`) is the container's `localScopeStrategy` field.
- The public `inject`/`getInstance` methods (`ContainerImpl.java:318-336`) return `null` and are stubs. The `injectors` field (`ContainerImpl.java:307-308`) does not compile. The per-class injector list is therefore a parameter of `NewConstructorInjector`.
- `java.util.logging`: the logger factory gives a `Logger` object naming the member's declaring class, or an anonymous one without a member.
- The typed `constant(name, value)` overloads (`ContainerBuilder.java:261-326`) all reduce to `Constant` with the matching class id.
- `toString` and the `LinkedHashMap` debug formatting.
- The `factory(Class, Factory)` overload used by `FactoryTest.java` does not exist in the source.
- `Injection.AddInjectorsForMembers`: it returns a new list instead of appending to the caller's list in place. On a `DependencyException` the model does not keep the injectors appended before the throw.
- `Injection.Create`: the depth bound (`fuel`) is a model artefact; Java recursion is unbounded. A resolution deeper than the bound ends in the `OutOfFuel` error wherever the contracts allow a throw, where Java would go on or overflow its stack.
- `Injection.GetParameters` states the array's length, not the value of each argument.
- `Injection.CreateScoped` and `Scoping.Strategy`: the user's strategy is a stateless function from (scope, type, name) to one of three answers: a value it holds, a call of the factory whose result is returned as produced, or an exception. A real `findInX` (`Scope.java:170-190`) may also call the factory and keep its result for later calls, transform that result, or call it and then throw. The model cannot express those, so the `CreateScoped` clause "a value returned is one the inner factory delivers" relies on that restriction.
- `RefCache.ReferenceCache.create` is likewise a pure function of the key. It cannot re-enter the cache, so a creation nested in another is set up as a state by `RefCache.CreatingCache` rather than by a `create` that calls `internalCreate`.
- `Injection.CreateMemoized`, `Injection.CreateScoped` and `Injection.Create` tie a wrapper's result to what its inner factory delivers one level deep. When the inner factory is itself a wrapper, its own inner factory is not followed.
- `Injection.Create` and `Builder.LoadSingletons`: what an implementation binding yields is an instance or a proxy of the bound interface. The instance's class is not stated.
- `RefMap.LiveEntries` states only its length bound. Its meaning is stated by `RefMap.LiveEntriesMeaning`.
- `RefMap.ReferenceMap.Size` states a lower bound. It equals the number of stored entries, stale ones included.
- `RefMap.ReferenceMap.KeySet` returns its `HashSet` as a sequence without repeats. When several elements are `equals`, it does not say which one the set keeps. `RefMap.ReferenceMap.Values` returns its list with one slot per entry, including the `null` of a reclaimed value.

## Findings

| source | as written | input that shows it | evidently intended | confidence | as-written member | corrected member |
|---|---|---|---|---|---|---|
| src/main/java/org/garry/gucie_clone/inject/util/ReferenceCache.java:47-67 | The pending marker is looked up before the nested-creation check. A creation nested in one for the same key finds the running creation's own marker and waits on its future. | A strong cache is creating key `o`, and its `create(o)` calls `internalCreate(o)`. `get` never calls `internalCreate` (`ReferenceMap.java:103-113`), so that `create` has to be code in the same package calling the package-private method. | The nested creation fails with `IllegalStateException`, as the message at line 53 says. | likely (not executed) | RefCache.SelfWaitAsWritten | RefCache.SelfWaitGuarded |
| src/main/java/org/garry/gucie_clone/inject/util/ReferenceCache.java:51-64 | The `finally` of a refused nested creation runs `localFuture.remove()`. That clears the slot of the creation still running on this thread. | While `o` is being created, its `create(o)` calls package-private `internalCreate(a)`, which is refused, catches that `IllegalStateException`, and then calls `internalCreate(b)`, which succeeds. | Every creation nested in the running one is refused. | likely (not executed) | RefCache.LostGuardAsWritten | RefCache.InternalCreateGuarded |

Both as-written members run `RefCache.ReferenceCache.InternalCreate`, which models the code as written. The corrected `RefCache.InternalCreateGuarded` checks for nesting before touching any marker, and its contract states that a refused call leaves the running creation's state alone. `RefCache.LostGuardGuarded` shows both nested calls refused.
