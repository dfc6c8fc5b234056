/** ContainerImpl.java: how a constructor is chosen, how injectors for
    constructor parameters, fields and methods are assembled against the
    factory table, and how `construct` breaks circular dependencies while it
    resolves them. Reflection is replaced by declarations given as values:
    a class lists its constructors, a member its annotations and parameters,
    and an instance records what was injected into it. */
module Injection {
  import opened Errors
  import opened Construction
  import opened Internal
  import opened Scoping

  // ---------------------------------------------------------------------
  // Declarations, as reflection reports them

  /** An `@Inject` annotation: its `value()` and `required()`. */
  datatype InjectAnn = InjectAnn(value: string, required: bool)

  datatype Annotation = InjectAnnotation(inject: InjectAnn) | OtherAnnotation(typ: ClassId)

  /** A constructor, field or method: its declaring class and its identity. */
  datatype MemberRef = MemberRef(declaringClass: ClassId, id: nat)

  /** ExternalContext.java: the member being injected (none for an eager
      singleton) and the key of the dependency. */
  datatype ExternalContext = ExternalContext(member: Option<MemberRef>, key: Key)

  datatype ParamDecl = ParamDecl(typ: ClassId, annotations: seq<Annotation>)

  /** A declared constructor; `throws` is what its body throws, if anything. */
  datatype ConstructorDecl = ConstructorDecl(
    ref: MemberRef, inject: Option<InjectAnn>, params: seq<ParamDecl>, throws: Option<Exception>)

  datatype FieldDecl = FieldDecl(ref: MemberRef, typ: ClassId, isStatic: bool, inject: Option<InjectAnn>)

  datatype MethodDecl = MethodDecl(
    ref: MemberRef, isStatic: bool, inject: Option<InjectAnn>, params: seq<ParamDecl>, throws: Option<Exception>)

  datatype MemberDecl = FieldMember(field: FieldDecl) | MethodMember(meth: MethodDecl)

  /** A class as `getDeclaredConstructors` sees it. */
  datatype ClassDecl = ClassDecl(id: ClassId, constructors: seq<ConstructorDecl>)

  function IsStatic(m: MemberDecl): bool {
    match m
    case FieldMember(f) => f.isStatic
    case MethodMember(md) => md.isStatic
  }

  function InjectOf(m: MemberDecl): Option<InjectAnn> {
    match m
    case FieldMember(f) => f.inject
    case MethodMember(md) => md.inject
  }

  // ---------------------------------------------------------------------
  // Run-time values

  /** The objects a factory can produce. */
  datatype Obj =
    | Null
    | IntValue(i: int)
    | StringValue(s: string)
    | InstanceRef(inst: Instance)
    | Proxy(handler: Handler<Instance>, iface: ClassId)
    | TheContainer
    | Logger(owner: Option<ClassId>)

  /** An object built by a constructor injector: the arguments its
      constructor received, the fields set by injection (by member id) and
      the injected method calls, in order. */
  class Instance {
    const cls: ClassId
    const constructorArgs: seq<Obj>
    var fields: map<nat, Obj>
    var invocations: seq<(nat, seq<Obj>)>

    constructor (cls: ClassId, constructorArgs: seq<Obj>)
      ensures this.cls == cls && this.constructorArgs == constructorArgs
      ensures fields == map[] && invocations == []
    {
      this.cls := cls;
      this.constructorArgs := constructorArgs;
      fields := map[];
      invocations := [];
    }
  }

  /** The kinds of `InternalFactory` the container uses: the two built-in
      ones, constants, implementation bindings and the scope wrappers of
      Scope.java (SINGLETON and THREAD memoise; REQUEST, SESSION and WIZARD
      ask the scope strategy). */
  datatype FactoryKind =
    | ContainerFactory
    | LoggerFactory
    | ConstantFactory(value: Obj)
    | ImplementationFactory(typ: ClassId, name: string, impl: ClassId)
    | Memoized(perThread: bool, inner: InternalFactory)
    | StrategyScoped(scope: StrategyScope, typ: ClassId, name: string, inner: InternalFactory)

  class InternalFactory {
    const kind: FactoryKind
    /** SINGLETON's `instance` field, THREAD's thread-local slot. */
    var instance: Obj
    /** An implementation factory's lazily fetched constructor injector. */
    var cachedConstructor: Option<ConstructorInjector>

    constructor (kind: FactoryKind)
      ensures this.kind == kind && instance == Null && cachedConstructor.None?
    {
      this.kind := kind;
      instance := Null;
      cachedConstructor := None;
    }
  }

  /** A value `f` can produce, judged by its kind: the container, a logger,
      the constant, and for an implementation binding an instance or a
      proxy of the bound type (never `null`). Of a scope wrapper the kind
      alone says nothing. */
  ghost predicate Yields(f: InternalFactory, v: Obj) {
    match f.kind
    case ContainerFactory => v == TheContainer
    case LoggerFactory => v.Logger?
    case ConstantFactory(c) => v == c
    case ImplementationFactory(typ, _, _) => v.InstanceRef? || (v.Proxy? && v.iface == typ)
    case _ => true
  }

  datatype ParameterInjector = ParameterInjector(externalContext: ExternalContext, factory: InternalFactory)

  /** `FieldInjector` and `MethodInject`, the two `Injector` classes. */
  datatype Injector =
    | FieldInjector(field: FieldDecl, factory: InternalFactory, externalContext: ExternalContext)
    | MethodInjector(meth: MethodDecl, parameterInjectors: seq<ParameterInjector>)

  class ConstructorInjector {
    const implementation: ClassId
    const injectors: seq<Injector>
    const ctor: ConstructorDecl
    /** `null` for a no-arg constructor without `@Inject`. */
    const parameterInjectors: Option<seq<ParameterInjector>>

    constructor (implementation: ClassId, injectors: seq<Injector>, ctor: ConstructorDecl,
                 parameterInjectors: Option<seq<ParameterInjector>>)
      ensures this.implementation == implementation && this.injectors == injectors
      ensures this.ctor == ctor && this.parameterInjectors == parameterInjectors
    {
      this.implementation := implementation;
      this.injectors := injectors;
      this.ctor := ctor;
      this.parameterInjectors := parameterInjectors;
    }
  }

  /** The parameter injectors only use factories of `fs`. */
  ghost predicate ParameterInjectorsUse(pis: seq<ParameterInjector>, fs: set<InternalFactory>) {
    forall i :: 0 <= i < |pis| ==> pis[i].factory in fs
  }

  ghost predicate InjectorUses(inj: Injector, fs: set<InternalFactory>) {
    match inj
    case FieldInjector(_, f, _) => f in fs
    case MethodInjector(_, pis) => ParameterInjectorsUse(pis, fs)
  }

  ghost predicate ConstructorInjectorUses(ci: ConstructorInjector, fs: set<InternalFactory>) {
    && (ci.parameterInjectors.Some? ==> ParameterInjectorsUse(ci.parameterInjectors.value, fs))
    && forall i :: 0 <= i < |ci.injectors| ==> InjectorUses(ci.injectors[i], fs)
  }

  /** The container: its factory table and what the rest of the program
      supplies, namely the constructor injector of each implementation
      (`getConstructor`), which classes are interfaces, and the container's
      thread-local scope strategy. */
  class ContainerImpl {
    const factories: map<Key, InternalFactory>
    const constructors: map<ClassId, ConstructorInjector>
    const interfaces: set<ClassId>
    const localScopeStrategy: Option<Strategy<Obj>>
    /** Every factory reachable from the table. */
    ghost const Factories: set<InternalFactory>

    constructor (factories: map<Key, InternalFactory>, constructors: map<ClassId, ConstructorInjector>,
                 interfaces: set<ClassId>, localScopeStrategy: Option<Strategy<Obj>>,
                 ghost Factories: set<InternalFactory>)
      ensures this.factories == factories && this.constructors == constructors
      ensures this.interfaces == interfaces && this.localScopeStrategy == localScopeStrategy
      ensures this.Factories == Factories
    {
      this.factories := factories;
      this.constructors := constructors;
      this.interfaces := interfaces;
      this.localScopeStrategy := localScopeStrategy;
      this.Factories := Factories;
    }

    /** The factory graph is closed: wrappers wrap known factories, every
        implementation has a constructor injector, and every injector refers
        to known factories. A SINGLETON or THREAD wrapper only stores what
        its inner factory can produce. */
    ghost predicate Valid()
      reads Factories
    {
      && factories.Values <= Factories
      && (forall f :: f in Factories ==> FactoryClosed(f))
      && (forall ci :: ci in constructors.Values ==> InjectorClosed(ci))
    }

    ghost predicate FactoryClosed(f: InternalFactory)
      reads f
    {
      match f.kind
      case ImplementationFactory(_, _, impl) =>
        impl in constructors && (f.cachedConstructor.Some? ==> f.cachedConstructor.value == constructors[impl])
      case Memoized(_, inner) => inner in Factories && (f.instance != Null ==> Yields(inner, f.instance))
      case StrategyScoped(_, _, _, inner) => inner in Factories
      case _ => true
    }

    ghost predicate ParameterInjectorsIn(pis: seq<ParameterInjector>) {
      ParameterInjectorsUse(pis, Factories)
    }

    ghost predicate InjectorIn(inj: Injector) {
      InjectorUses(inj, Factories)
    }

    ghost predicate InjectorClosed(ci: ConstructorInjector) {
      ConstructorInjectorUses(ci, Factories)
    }

    /** A memoised instance or a fetched constructor injector, once stored,
        is never replaced. */
    twostate predicate KeepsCaches()
      reads Factories
    {
      forall g :: g in Factories ==>
        && (old(g.instance) != Null ==> g.instance == old(g.instance))
        && (old(g.cachedConstructor).Some? ==> g.cachedConstructor == old(g.cachedConstructor))
    }

    /** `getFactory`: the table lookup. */
    function GetFactory(key: Key): (r: Option<InternalFactory>)
      ensures r.Some? <==> key in factories
      ensures r.Some? ==> r.value == factories[key]
    {
      if key in factories then Some(factories[key]) else None
    }
  }

  // ---------------------------------------------------------------------
  // Finding annotations and constructors

  /** The first `@Inject` among `annotations`, if any. */
  function FindInject(annotations: seq<Annotation>): (r: Option<InjectAnn>)
    ensures r.None? <==> forall i :: 0 <= i < |annotations| ==> !annotations[i].InjectAnnotation?
    ensures r.Some? ==> exists i :: 0 <= i < |annotations| && annotations[i] == InjectAnnotation(r.value)
                                   && forall j :: 0 <= j < i ==> !annotations[j].InjectAnnotation?
  {
    if annotations == [] then None
    else if annotations[0].InjectAnnotation? then Some(annotations[0].inject)
    else
      var r := FindInject(annotations[1..]);
      assert r.Some? ==> exists i :: 0 <= i < |annotations| && annotations[i] == InjectAnnotation(r.value)
                                     && forall j :: 0 <= j < i ==> !annotations[j].InjectAnnotation? by {
        if r.Some? {
          var i :| 0 <= i < |annotations[1..]| && annotations[1..][i] == InjectAnnotation(r.value)
                   && forall j :: 0 <= j < i ==> !annotations[1..][j].InjectAnnotation?;
          assert annotations[i + 1] == InjectAnnotation(r.value);
          assert forall j :: 0 <= j < i + 1 ==> !annotations[j].InjectAnnotation? by {
            forall j | 0 <= j < i + 1
              ensures !annotations[j].InjectAnnotation?
            {
              if j > 0 { assert annotations[j] == annotations[1..][j - 1]; }
            }
          }
        }
      }
      r
  }

  /** How many of `cs` carry `@Inject`. */
  ghost function AnnotatedCount(cs: seq<ConstructorDecl>): nat {
    if cs == [] then 0
    else AnnotatedCount(cs[..|cs| - 1]) + (if cs[|cs| - 1].inject.Some? then 1 else 0)
  }

  lemma {:induction false} AnnotatedCountPrefix(cs: seq<ConstructorDecl>, i: nat)
    requires i <= |cs|
    ensures AnnotatedCount(cs[..i]) <= AnnotatedCount(cs)
    decreases |cs|
  {
    if i < |cs| {
      assert cs[..|cs| - 1][..i] == cs[..i];
      AnnotatedCountPrefix(cs[..|cs| - 1], i);
    } else {
      assert cs[..i] == cs;
    }
  }

  /** With exactly one annotated constructor, the annotated one is unique. */
  lemma {:induction false} AnnotatedUnique(cs: seq<ConstructorDecl>, i: nat, j: nat)
    requires AnnotatedCount(cs) == 1
    requires i < |cs| && j < |cs| && cs[i].inject.Some? && cs[j].inject.Some?
    ensures i == j
    decreases |cs|
  {
    var last := |cs| - 1;
    var init := cs[..last];
    if i < last && j < last {
      if cs[last].inject.Some? {
        AnnotatedPositive(init, i);
      } else {
        AnnotatedUnique(init, i, j);
      }
    } else if i < last {
      AnnotatedPositive(init, i);
    } else if j < last {
      AnnotatedPositive(init, j);
    }
  }

  lemma {:induction false} AnnotatedPositive(cs: seq<ConstructorDecl>, i: nat)
    requires i < |cs| && cs[i].inject.Some?
    ensures AnnotatedCount(cs) >= 1
    decreases |cs|
  {
    if i < |cs| - 1 {
      AnnotatedPositive(cs[..|cs| - 1], i);
    }
  }

  /** Without annotated constructors no constructor carries `@Inject`. */
  lemma {:induction false} AnnotatedNone(cs: seq<ConstructorDecl>)
    requires AnnotatedCount(cs) == 0
    ensures forall i :: 0 <= i < |cs| ==> cs[i].inject.None?
    decreases |cs|
  {
    if cs != [] {
      AnnotatedNone(cs[..|cs| - 1]);
      assert forall i :: 0 <= i < |cs| - 1 ==> cs[i] == cs[..|cs| - 1][i];
    }
  }

  /** What `getDeclaredConstructor()` finds: the constructor without
      parameters, if the class declares one. */
  function NoArgConstructor(cs: seq<ConstructorDecl>): (r: Option<ConstructorDecl>)
    ensures r.Some? ==> r.value in cs && r.value.params == []
    ensures r.None? <==> forall i :: 0 <= i < |cs| ==> cs[i].params != []
  {
    if cs == [] then None
    else if cs[0].params == [] then Some(cs[0])
    else
      var r := NoArgConstructor(cs[1..]);
      assert r.None? ==> forall i :: 0 <= i < |cs| ==> cs[i].params != [] by {
        if r.None? {
          forall i | 0 <= i < |cs|
            ensures cs[i].params != []
          {
            if i > 0 { assert cs[i] == cs[1..][i - 1]; }
          }
        }
      }
      r
  }

  /** `findConstructorIn`: the single `@Inject` constructor, else the no-arg
      constructor; two annotated constructors, or neither kind, fail. */
  method FindConstructorIn(c: ClassDecl) returns (r: Outcome<ConstructorDecl>)
    ensures AnnotatedCount(c.constructors) >= 2 <==> r == Throw(DependencyException(AmbiguousConstructor(c.id)))
    ensures AnnotatedCount(c.constructors) == 1 ==> r.Ok? && r.value in c.constructors && r.value.inject.Some?
    ensures AnnotatedCount(c.constructors) == 0 && NoArgConstructor(c.constructors).Some? ==>
              r == Ok(NoArgConstructor(c.constructors).value)
    ensures AnnotatedCount(c.constructors) == 0 && NoArgConstructor(c.constructors).None? ==>
              r == Throw(DependencyException(NoSuitableConstructor(c.id)))
    ensures r.Ok? ==> (r.value.inject.Some? <==> AnnotatedCount(c.constructors) == 1)
  {
    var cs := c.constructors;
    var found: Option<ConstructorDecl> := None;
    for i := 0 to |cs|
      invariant AnnotatedCount(cs[..i]) <= 1
      invariant found.None? <==> AnnotatedCount(cs[..i]) == 0
      invariant found.Some? ==> found.value in cs && found.value.inject.Some?
    {
      assert cs[..i + 1][..i] == cs[..i];
      if cs[i].inject.Some? {
        if found.Some? {
          AnnotatedCountPrefix(cs, i + 1);
          return Throw(DependencyException(AmbiguousConstructor(c.id)));
        }
        found := Some(cs[i]);
      }
    }
    assert cs[..|cs|] == cs;
    if found.Some? {
      return Ok(found.value);
    }
    var noArg := NoArgConstructor(cs);
    if noArg.None? {
      return Throw(DependencyException(NoSuitableConstructor(c.id)));
    }
    AnnotatedNone(cs);
    r := Ok(noArg.value);
  }

  // ---------------------------------------------------------------------
  // Assembling injectors

  /** The name a parameter is looked up under: its `@Inject` value, else the
      default of the member. */
  function ParamName(p: ParamDecl, defaultName: string): string {
    var a := FindInject(p.annotations);
    if a.Some? then a.value.value else defaultName
  }

  function ParamKey(p: ParamDecl, defaultName: string): Key {
    Key(p.typ, ParamName(p, defaultName))
  }

  /** `creatrParameterInjector`: a missing factory is a missing dependency. */
  function CreateParameterInjector(c: ContainerImpl, key: Key, member: MemberRef): (r: Outcome<ParameterInjector>)
    ensures r.Ok? <==> key in c.factories
    ensures r.Ok? ==> r.value.factory == c.factories[key] && r.value.externalContext == ExternalContext(Some(member), key)
    ensures r.Throw? ==> r.ex == MissingDependency(key)
  {
    match c.GetFactory(key)
    case None => Throw(MissingDependency(key))
    case Some(f) => Ok(ParameterInjector(ExternalContext(Some(member), key), f))
  }

  /** The position of the first parameter without a factory (`|params|` when
      there is none). */
  function FirstMissing(c: ContainerImpl, params: seq<ParamDecl>, defaultName: string): (i: nat)
    ensures i <= |params|
    ensures i < |params| ==> ParamKey(params[i], defaultName) !in c.factories
    ensures forall j :: 0 <= j < i ==> ParamKey(params[j], defaultName) in c.factories
  {
    if params == [] then 0
    else if ParamKey(params[0], defaultName) !in c.factories then 0
    else
      var i := FirstMissing(c, params[1..], defaultName);
      assert forall j :: 0 <= j < i + 1 ==> ParamKey(params[j], defaultName) in c.factories by {
        forall j | 0 <= j < i + 1
          ensures ParamKey(params[j], defaultName) in c.factories
        {
          if j > 0 { assert params[j] == params[1..][j - 1]; }
        }
      }
      i + 1
  }

  /** The parameter injectors of a member, stated directly: one per
      parameter, in order, under the parameter's key; or the missing
      dependency of the first parameter that has no factory. */
  ghost function ParameterInjectorsOf(c: ContainerImpl, params: seq<ParamDecl>, defaultName: string,
                                      member: MemberRef): Outcome<seq<ParameterInjector>>
  {
    var i := FirstMissing(c, params, defaultName);
    if i == |params| then
      Ok(seq(|params|, k requires 0 <= k < |params| =>
        ParameterInjector(ExternalContext(Some(member), ParamKey(params[k], defaultName)),
                          c.factories[ParamKey(params[k], defaultName)])))
    else
      Throw(MissingDependency(ParamKey(params[i], defaultName)))
  }

  lemma ParameterInjectorsOfMeaning(c: ContainerImpl, params: seq<ParamDecl>, defaultName: string, member: MemberRef)
    ensures ParameterInjectorsOf(c, params, defaultName, member).Ok? <==>
              forall k :: 0 <= k < |params| ==> ParamKey(params[k], defaultName) in c.factories
    ensures ParameterInjectorsOf(c, params, defaultName, member).Ok? ==>
              |ParameterInjectorsOf(c, params, defaultName, member).value| == |params|
    ensures ParameterInjectorsOf(c, params, defaultName, member).Throw? ==>
              exists k :: 0 <= k < |params| && ParamKey(params[k], defaultName) !in c.factories
                          && ParameterInjectorsOf(c, params, defaultName, member).ex == MissingDependency(ParamKey(params[k], defaultName))
  {
  }

  /** `getParametersInjectors`. */
  method GetParametersInjectors(c: ContainerImpl, member: MemberRef, params: seq<ParamDecl>, defaultName: string)
    returns (r: Outcome<seq<ParameterInjector>>)
    ensures r == ParameterInjectorsOf(c, params, defaultName, member)
  {
    var injectors: seq<ParameterInjector> := [];
    for i := 0 to |params|
      invariant i <= FirstMissing(c, params, defaultName)
      invariant |injectors| == i
      invariant forall k :: 0 <= k < i ==>
                  injectors[k] == ParameterInjector(ExternalContext(Some(member), ParamKey(params[k], defaultName)),
                                                    c.factories[ParamKey(params[k], defaultName)])
    {
      var annotation := FindInject(params[i].annotations);
      var name := if annotation.None? then defaultName else annotation.value.value;
      var key := Key(params[i].typ, name);
      assert key == ParamKey(params[i], defaultName);
      var pi := CreateParameterInjector(c, key, member);
      if pi.Throw? {
        assert FirstMissing(c, params, defaultName) == i;
        return Throw(pi.ex);
      }
      injectors := injectors + [pi.value];
    }
    assert FirstMissing(c, params, defaultName) == |params|;
    assert injectors == seq(|params|, k requires 0 <= k < |params| =>
      ParameterInjector(ExternalContext(Some(member), ParamKey(params[k], defaultName)),
                        c.factories[ParamKey(params[k], defaultName)]));
    r := Ok(injectors);
  }

  /** The `FieldInjector` constructor. */
  function NewFieldInjector(c: ContainerImpl, field: FieldDecl, name: string): (r: Outcome<Injector>)
    ensures r.Ok? <==> Key(field.typ, name) in c.factories
    ensures r.Ok? ==> r.value == FieldInjector(field, c.factories[Key(field.typ, name)],
                                               ExternalContext(Some(field.ref), Key(field.typ, name)))
    ensures r.Throw? ==> r.ex == MissingDependency(Key(field.typ, name))
  {
    var key := Key(field.typ, name);
    match c.GetFactory(key)
    case None => Throw(MissingDependency(key))
    case Some(f) => Ok(FieldInjector(field, f, ExternalContext(Some(field.ref), key)))
  }

  /** What the `MethodInject` constructor yields: a method without
      parameters is a configuration error, otherwise its parameter
      injectors under the `@Inject` name. */
  ghost function MethodInjectorOf(c: ContainerImpl, m: MethodDecl, name: string): Outcome<Injector> {
    if m.params == [] then Throw(DependencyException(NoParametersToInject(m.ref.id)))
    else match ParameterInjectorsOf(c, m.params, name, m.ref)
      case Ok(pis) => Ok(MethodInjector(m, pis))
      case Throw(e) => Throw(e)
  }

  /** The `MethodInject` constructor. */
  method NewMethodInject(c: ContainerImpl, m: MethodDecl, name: string) returns (r: Outcome<Injector>)
    ensures r == MethodInjectorOf(c, m, name)
  {
    if |m.params| == 0 {
      return Throw(DependencyException(NoParametersToInject(m.ref.id)));
    }
    var pis := GetParametersInjectors(c, m.ref, m.params, name);
    if pis.Throw? {
      return Throw(pis.ex);
    }
    r := Ok(MethodInjector(m, pis.value));
  }

  ghost function InjectorOf(c: ContainerImpl, m: MemberDecl, name: string): Outcome<Injector> {
    match m
    case FieldMember(f) => NewFieldInjector(c, f, name)
    case MethodMember(md) => MethodInjectorOf(c, md, name)
  }

  /** `InjectorFactory.create` for the two member kinds. */
  method CreateInjector(c: ContainerImpl, m: MemberDecl, name: string) returns (r: Outcome<Injector>)
    ensures r == InjectorOf(c, m, name)
  {
    match m
    case FieldMember(f) => r := NewFieldInjector(c, f, name);
    case MethodMember(md) => r := NewMethodInject(c, md, name);
  }

  /** A member `addInjectorsForMembers` builds an injector for. */
  predicate Candidate(m: MemberDecl, statics: bool) {
    IsStatic(m) == statics && InjectOf(m).Some?
  }

  /** Creating a candidate's injector either succeeds or fails in a way that
      is allowed: a missing dependency of an optional member. */
  ghost predicate Tolerated(c: ContainerImpl, m: MemberDecl) {
    && InjectOf(m).Some?
    && var r := InjectorOf(c, m, InjectOf(m).value.value);
       r.Ok? || (r.ex.MissingDependency? && !InjectOf(m).value.required)
  }

  function Extend<T>(prefix: seq<T>, o: Outcome<seq<T>>): Outcome<seq<T>> {
    match o
    case Ok(l) => Ok(prefix + l)
    case Throw(e) => Throw(e)
  }

  lemma ExtendAppend<T>(prefix: seq<T>, x: T, o: Outcome<seq<T>>)
    ensures Extend(prefix, Extend([x], o)) == Extend(prefix + [x], o)
  {
    if o.Ok? {
      assert prefix + ([x] + o.value) == (prefix + [x]) + o.value;
    }
  }

  /** The injectors `addInjectorsForMembers` appends, member by member. */
  ghost function MemberInjectors(c: ContainerImpl, members: seq<MemberDecl>, statics: bool): Outcome<seq<Injector>>
    decreases |members|
  {
    if members == [] then Ok([])
    else
      var m := members[0];
      var rest := MemberInjectors(c, members[1..], statics);
      if !Candidate(m, statics) then rest
      else match InjectorOf(c, m, InjectOf(m).value.value)
        case Ok(inj) => Extend([inj], rest)
        case Throw(e) =>
          if !e.MissingDependency? then Throw(e)
          else if InjectOf(m).value.required then Throw(DependencyException(Caused(e)))
          else rest
  }

  /** `addInjectorsForMembers`: appends to `injectors` the injectors of the
      `@Inject` members whose static-ness is `statics`. */
  method AddInjectorsForMembers(c: ContainerImpl, members: seq<MemberDecl>, statics: bool, injectors: seq<Injector>)
    returns (r: Outcome<seq<Injector>>)
    ensures r == Extend(injectors, MemberInjectors(c, members, statics))
  {
    var acc := injectors;
    for i := 0 to |members|
      invariant Extend(injectors, MemberInjectors(c, members, statics)) == Extend(acc, MemberInjectors(c, members[i..], statics))
    {
      assert members[i..][0] == members[i] && members[i..][1..] == members[i + 1..];
      var m := members[i];
      if IsStatic(m) == statics {
        var inject := InjectOf(m);
        if inject.Some? {
          var created := CreateInjector(c, m, inject.value.value);
          if created.Ok? {
            ExtendAppend(acc, created.value, MemberInjectors(c, members[i + 1..], statics));
            acc := acc + [created.value];
          } else if created.ex.MissingDependency? {
            if inject.value.required {
              return Throw(DependencyException(Caused(created.ex)));
            }
          } else {
            return Throw(created.ex);
          }
        }
      }
    }
    assert members[|members|..] == [];
    assert acc + [] == acc;
    r := Ok(acc);
  }

  /** The members `addInjectorsForMembers` accepts: it succeeds exactly when
      every candidate's injector can be built or belongs to an optional
      member with a missing dependency. */
  lemma {:induction false} MemberInjectorsOk(c: ContainerImpl, members: seq<MemberDecl>, statics: bool)
    ensures MemberInjectors(c, members, statics).Ok? <==>
              forall i :: 0 <= i < |members| && Candidate(members[i], statics) ==> Tolerated(c, members[i])
    decreases |members|
  {
    if members != [] {
      MemberInjectorsOk(c, members[1..], statics);
      assert forall i :: 1 <= i < |members| ==> members[i] == members[1..][i - 1];
    }
  }

  /** Every injector in the result belongs to a candidate member, and every
      candidate whose injector can be built contributes it. */
  lemma {:induction false} MemberInjectorsContents(c: ContainerImpl, members: seq<MemberDecl>, statics: bool)
    requires MemberInjectors(c, members, statics).Ok?
    ensures forall x :: x in MemberInjectors(c, members, statics).value ==>
              exists i :: 0 <= i < |members| && Candidate(members[i], statics)
                          && InjectorOf(c, members[i], InjectOf(members[i]).value.value) == Ok(x)
    ensures forall i :: 0 <= i < |members| && Candidate(members[i], statics)
                        && InjectorOf(c, members[i], InjectOf(members[i]).value.value).Ok? ==>
              InjectorOf(c, members[i], InjectOf(members[i]).value.value).value in MemberInjectors(c, members, statics).value
    decreases |members|
  {
    if members != [] {
      MemberInjectorsContents(c, members[1..], statics);
      assert forall i :: 1 <= i < |members| ==> members[i] == members[1..][i - 1];
      var rest := MemberInjectors(c, members[1..], statics).value;
      var all := MemberInjectors(c, members, statics).value;
      forall x | x in all
        ensures exists i :: 0 <= i < |members| && Candidate(members[i], statics)
                            && InjectorOf(c, members[i], InjectOf(members[i]).value.value) == Ok(x)
      {
        if x !in rest {
          assert Candidate(members[0], statics);
        } else {
          var i :| 0 <= i < |members[1..]| && Candidate(members[1..][i], statics)
                   && InjectorOf(c, members[1..][i], InjectOf(members[1..][i]).value.value) == Ok(x);
          assert members[i + 1] == members[1..][i];
        }
      }
    }
  }

  /** With exactly one `@Inject` constructor, any two annotated members of
      the list are the same constructor. */
  lemma AnnotatedMember(cs: seq<ConstructorDecl>, a: ConstructorDecl, b: ConstructorDecl)
    requires AnnotatedCount(cs) == 1
    requires a in cs && b in cs && a.inject.Some? && b.inject.Some?
    ensures a == b
  {
    var i :| 0 <= i < |cs| && cs[i] == a;
    var j :| 0 <= j < |cs| && cs[j] == b;
    AnnotatedUnique(cs, i, j);
  }

  /** The `ConstructorInjector` constructor: chooses the constructor and,
      for an `@Inject` one, builds its parameter injectors under the
      annotation's name; a missing dependency becomes a configuration error.
      `injectors` is the member-injector list of the implementation. */
  method NewConstructorInjector(c: ContainerImpl, decl: ClassDecl, injectors: seq<Injector>)
    returns (r: Outcome<ConstructorInjector>)
    ensures AnnotatedCount(decl.constructors) >= 2 ==> r == Throw(DependencyException(AmbiguousConstructor(decl.id)))
    ensures AnnotatedCount(decl.constructors) == 0 && NoArgConstructor(decl.constructors).None? ==>
              r == Throw(DependencyException(NoSuitableConstructor(decl.id)))
    ensures r.Ok? ==> && fresh(r.value) && r.value.implementation == decl.id && r.value.injectors == injectors
                      && r.value.ctor in decl.constructors
    ensures r.Ok? && r.value.ctor.inject.None? ==>
              && AnnotatedCount(decl.constructors) == 0
              && r.value.ctor == NoArgConstructor(decl.constructors).value
              && r.value.parameterInjectors.None?
    ensures r.Ok? && r.value.ctor.inject.Some? ==>
              && AnnotatedCount(decl.constructors) == 1
              && r.value.parameterInjectors.Some?
              && ParameterInjectorsOf(c, r.value.ctor.params, r.value.ctor.inject.value.value, r.value.ctor.ref)
                 == Ok(r.value.parameterInjectors.value)
    ensures r.Throw? && r.ex.DependencyException? && r.ex.reason.Caused? ==>
              exists ctor :: ctor in decl.constructors && ctor.inject.Some?
                             && ParameterInjectorsOf(c, ctor.params, ctor.inject.value.value, ctor.ref)
                                == Throw(r.ex.reason.cause)
    ensures AnnotatedCount(decl.constructors) == 0 && NoArgConstructor(decl.constructors).Some? ==>
              r.Ok? && r.value.ctor == NoArgConstructor(decl.constructors).value
    ensures forall ctor :: ctor in decl.constructors && ctor.inject.Some? && AnnotatedCount(decl.constructors) == 1 ==>
              var p := ParameterInjectorsOf(c, ctor.params, ctor.inject.value.value, ctor.ref);
              && (p.Ok? ==> r.Ok? && r.value.ctor == ctor)
              && (p.Throw? ==> r == Throw(DependencyException(Caused(p.ex))))
  {
    var found := FindConstructorIn(decl);
    if found.Throw? {
      return Throw(found.ex);
    }
    var ctor := found.value;
    if AnnotatedCount(decl.constructors) == 1 {
      forall other | other in decl.constructors && other.inject.Some?
        ensures other == ctor
      {
        AnnotatedMember(decl.constructors, other, ctor);
      }
    }
    var parameterInjectors: Option<seq<ParameterInjector>> := None;
    if ctor.inject.Some? {
      var pis := GetParametersInjectors(c, ctor.ref, ctor.params, ctor.inject.value.value);
      if pis.Throw? {
        return Throw(DependencyException(Caused(pis.ex)));
      }
      parameterInjectors := Some(pis.value);
    }
    var ci := new ConstructorInjector(decl.id, injectors, ctor, parameterInjectors);
    r := Ok(ci);
  }

  /** The factory kind a scope other than DEFAULT wraps `inner` in. */
  function WrapperKind(scope: Scope, typ: ClassId, name: string, inner: InternalFactory): FactoryKind
    requires scope != DEFAULT
  {
    match scope
    case SINGLETON => Memoized(false, inner)
    case THREAD => Memoized(true, inner)
    case REQUEST => StrategyScoped(InRequest, typ, name, inner)
    case SESSION => StrategyScoped(InSession, typ, name, inner)
    case WIZARD => StrategyScoped(InWizard, typ, name, inner)
  }

  /** `Scope.scopeFactory`: DEFAULT hands the factory back, every other scope
      wraps it in a fresh factory of the matching kind. */
  method ScopeFactory(scope: Scope, typ: ClassId, name: string, factory: InternalFactory)
    returns (r: InternalFactory)
    ensures scope == DEFAULT ==> r == factory
    ensures scope != DEFAULT ==> && fresh(r) && r.instance == Null && r.cachedConstructor.None?
                                 && r.kind == WrapperKind(scope, typ, name, factory)
    ensures scope == SINGLETON ==> r.kind == Memoized(false, factory)
    ensures scope == THREAD ==> r.kind == Memoized(true, factory)
    ensures IsPluggable(scope) ==> r.kind == StrategyScoped(StrategyScopeOf(scope), typ, name, factory)
  {
    if scope == DEFAULT {
      r := factory;
    } else {
      r := new InternalFactory(WrapperKind(scope, typ, name, factory));
    }
  }

  // ---------------------------------------------------------------------
  // Resolution

  /** The state one top-level injection call works on. */
  type Context = InternalContext<ContainerImpl, ConstructorInjector, Instance, Strategy<Obj>, ExternalContext>

  ghost predicate Ready(ctx: Context)
    reads ctx, ctx.constructionContexts.Values, ctx.container.Factories
  {
    ctx.Valid() && ctx.container.Valid()
  }

  /** The strategy `getScopeStrategy` hands out: the cached one, else the
      container's thread-local one. */
  function EffectiveStrategy(cached: Option<Strategy<Obj>>, local: Option<Strategy<Obj>>): Option<Strategy<Obj>> {
    if cached.Some? then cached else local
  }

  /** The logger the built-in logger factory returns for an external context. */
  function LoggerFor(e: ExternalContext): Obj {
    Logger(if e.member.Some? then Some(e.member.value.declaringClass) else None)
  }

  /** What every resolution step keeps: the invariants, the way the
      construction contexts evolve, the external context it was called under,
      and every memoised instance; objects it adds to the context are new. */
  twostate predicate Preserved(ctx: Context)
    reads ctx, ctx.constructionContexts.Values, ctx.container.Factories
  {
    && Ready(ctx) && ctx.Evolves() && fresh(ctx.Repr - old(ctx.Repr))
    && ctx.externalContext == old(ctx.externalContext) && ctx.container.KeepsCaches()
  }

  /** `InternalFactory.create` for every kind of factory. `fuel` bounds the
      depth of nested resolution; running out is reported as `OutOfFuel`. */
  method Create(ctx: Context, f: InternalFactory, fuel: nat) returns (r: Outcome<Obj>)
    requires Ready(ctx) && f in ctx.container.Factories
    modifies ctx.Repr, ctx.container.Factories
    ensures Preserved(ctx)
    ensures f.kind.ContainerFactory? ==> r == Ok(TheContainer)
    ensures f.kind.LoggerFactory? && old(ctx.externalContext).None? ==> r == Throw(NullPointer)
    ensures f.kind.LoggerFactory? && old(ctx.externalContext).Some? ==> r == Ok(LoggerFor(old(ctx.externalContext).value))
    ensures f.kind.ConstantFactory? ==> r == Ok(f.kind.value)
    ensures f.kind.ImplementationFactory? ==> f.cachedConstructor == Some(ctx.container.constructors[f.kind.impl])
    ensures f.kind.Memoized? && old(f.instance) != Null ==>
              && r == Ok(old(f.instance))
              && unchanged(ctx.container.Factories)
              && ctx.constructionContexts == old(ctx.constructionContexts)
    ensures f.kind.Memoized? && r.Ok? ==> f.instance == r.value
    ensures f.kind.StrategyScoped? && EffectiveStrategy(old(ctx.scopeStrategy), ctx.container.localScopeStrategy).None? ==>
              r == Throw(IllegalState(ScopeStrategyNotSet))
    ensures f.kind.StrategyScoped? && EffectiveStrategy(old(ctx.scopeStrategy), ctx.container.localScopeStrategy).Some? ==>
              ScopedOutcome(EffectiveStrategy(old(ctx.scopeStrategy), ctx.container.localScopeStrategy).value, f.kind, r)
    ensures Delivers(ctx, f, r) && Forwards(ctx, f, r)
    decreases fuel, 1
  {
    match f.kind
    case ContainerFactory =>
      r := Ok(TheContainer);
    case LoggerFactory =>
      var e := ctx.GetExternalContext();
      r := if e.None? then Throw(NullPointer) else Ok(LoggerFor(e.value));
    case ConstantFactory(v) =>
      r := Ok(v);
    case ImplementationFactory(_, _, _) =>
      r := CreateImplementation(ctx, f, fuel);
    case Memoized(_, _) =>
      r := CreateMemoized(ctx, f, fuel);
    case StrategyScoped(_, _, _, _) =>
      r := CreateScoped(ctx, f, fuel);
  }

  /** The factory `ContainerBuilder.factory` makes for an implementation:
      fetch the constructor injector once, then construct for the bound type. */
  method CreateImplementation(ctx: Context, f: InternalFactory, fuel: nat) returns (r: Outcome<Obj>)
    requires Ready(ctx) && f in ctx.container.Factories && f.kind.ImplementationFactory?
    modifies ctx.Repr, ctx.container.Factories
    ensures Preserved(ctx)
    ensures f.cachedConstructor == Some(ctx.container.constructors[f.kind.impl])
    ensures Delivers(ctx, f, r)
    decreases fuel, 0
  {
    if f.cachedConstructor.None? {
      f.cachedConstructor := Some(ctx.container.constructors[f.kind.impl]);
    }
    if fuel == 0 {
      return Throw(OutOfFuel);
    }
    r := Construct(ctx, f.cachedConstructor.value, f.kind.typ, fuel - 1);
  }

  /** SINGLETON and THREAD: call the inner factory while nothing is stored,
      and keep what it returns. */
  method CreateMemoized(ctx: Context, f: InternalFactory, fuel: nat) returns (r: Outcome<Obj>)
    requires Ready(ctx) && f in ctx.container.Factories && f.kind.Memoized?
    modifies ctx.Repr, ctx.container.Factories
    ensures Preserved(ctx)
    ensures old(f.instance) != Null ==>
              && r == Ok(old(f.instance))
              && unchanged(ctx.container.Factories)
              && ctx.constructionContexts == old(ctx.constructionContexts)
    ensures r.Ok? ==> f.instance == r.value
    ensures Delivers(ctx, f, r) && Forwards(ctx, f, r)
    decreases fuel, 0
  {
    if f.instance == Null {
      if fuel == 0 {
        return Throw(OutOfFuel);
      }
      var v := Create(ctx, f.kind.inner, fuel - 1);
      if v.Throw? {
        return v;
      }
      f.instance := v.value;
    }
    r := Ok(f.instance);
  }

  /** What a pluggable scope returns once it has the strategy: the stored
      instance, the wrapped exception, and never a checked exception. */
  ghost predicate ScopedOutcome(s: Strategy<Obj>, kind: FactoryKind, r: Outcome<Obj>)
    requires kind.StrategyScoped?
  {
    var answer := s.find(kind.scope, kind.typ, kind.name);
    && (answer.Stored? ==> r == Ok(answer.value))
    && (answer.Raise? ==> r == Throw(WrapException(answer.ex)))
    && (r.Throw? ==> IsUnchecked(r.ex) || IsError(r.ex))
  }

  /** The objects a result refers to whose state a contract inspects. */
  ghost function ResultObjects(r: Outcome<Obj>): set<object> {
    if r.Ok? && r.value.InstanceRef? then {r.value.inst}
    else if r.Ok? && r.value.Proxy? then {r.value.handler}
    else {}
  }

  /** What `construct` returns for a binding, judged by the state its
      construction context was in when it was called: a proxy while the
      constructor runs, the instance being injected while its members are,
      and otherwise a new, fully injected instance. */
  twostate predicate Constructed(ctx: Context, ci: ConstructorInjector, expectedType: ClassId, new r: Outcome<Obj>)
    reads ResultObjects(r)
  {
    && (ci in old(ctx.constructionContexts) && old(ctx.constructionContexts[ci].constructing) ==>
          && (expectedType !in ctx.container.interfaces ==> r == Throw(DependencyException(NotAnInterface(expectedType))))
          && (expectedType in ctx.container.interfaces ==>
                r.Ok? && r.value.Proxy? && r.value.iface == expectedType
                && fresh(r.value.handler) && r.value.handler.delegate.None?))
    && (ci in old(ctx.constructionContexts) && !old(ctx.constructionContexts[ci].constructing)
        && old(ctx.constructionContexts[ci].currentReference).Some? ==>
          r == Ok(InstanceRef(old(ctx.constructionContexts[ci].currentReference).value)))
    && (ci !in old(ctx.constructionContexts) || old(ctx.constructionContexts[ci].Idle()) ==>
          FirstPassOutcome(ci, r) && (r.Ok? ==> fresh(r.value.inst)))
  }

  /** What `create` of `f` returns, for each kind of factory: the container,
      the logger for the external context, the constant, what `construct`
      returns for the bound type (unless the fuel ran out), the stored
      instance of a SINGLETON or THREAD wrapper, and the strategy's answer of
      a REQUEST, SESSION or WIZARD wrapper. */
  twostate predicate Delivers(ctx: Context, f: InternalFactory, new r: Outcome<Obj>)
    reads f, ResultObjects(r)
  {
    match f.kind
    case ContainerFactory => r == Ok(TheContainer)
    case LoggerFactory =>
      r == (if old(ctx.externalContext).None? then Throw(NullPointer) else Ok(LoggerFor(old(ctx.externalContext).value)))
    case ConstantFactory(v) => r == Ok(v)
    case ImplementationFactory(typ, _, impl) =>
      impl in ctx.container.constructors ==>
        r == Throw(OutOfFuel) || Constructed(ctx, ctx.container.constructors[impl], typ, r)
    case Memoized(_, _) =>
      && (old(f.instance) != Null ==> r == Ok(old(f.instance)))
      && (r.Ok? ==> r.value == f.instance)
    case StrategyScoped(_, _, _, _) =>
      var s := EffectiveStrategy(old(ctx.scopeStrategy), ctx.container.localScopeStrategy);
      && (s.None? ==> r == Throw(IllegalState(ScopeStrategyNotSet)))
      && (s.Some? ==> ScopedOutcome(s.value, f.kind, r))
  }

  /** How a scope wrapper hands on its inner factory's result: SINGLETON and
      THREAD with nothing stored, and a strategy that answers `CallFactory`,
      return what the inner factory delivers (the strategy wrapping what it
      throws), unless the fuel ran out. */
  twostate predicate Forwards(ctx: Context, f: InternalFactory, new r: Outcome<Obj>)
    reads if f.kind.Memoized? || f.kind.StrategyScoped? then {f.kind.inner} else {}, ResultObjects(r)
  {
    match f.kind
    case Memoized(_, inner) =>
      old(f.instance) == Null ==> r == Throw(OutOfFuel) || Delivers(ctx, inner, r)
    case StrategyScoped(scope, typ, name, inner) =>
      var s := EffectiveStrategy(old(ctx.scopeStrategy), ctx.container.localScopeStrategy);
      s.Some? && s.value.find(scope, typ, name).CallFactory? ==>
        && (r.Ok? ==> Delivers(ctx, inner, r))
        && (r.Throw? ==> r == Throw(OutOfFuel) || exists e :: r.ex == WrapException(e) && Delivers(ctx, inner, Throw(e)))
    case _ => true
  }

  /** REQUEST, SESSION and WIZARD: ask the strategy, passing the bound type
      and name and, as the callable, the inner factory. */
  method CreateScoped(ctx: Context, f: InternalFactory, fuel: nat) returns (r: Outcome<Obj>)
    requires Ready(ctx) && f in ctx.container.Factories && f.kind.StrategyScoped?
    modifies ctx.Repr, ctx.container.Factories
    ensures Preserved(ctx)
    ensures EffectiveStrategy(old(ctx.scopeStrategy), ctx.container.localScopeStrategy).None? ==>
              r == Throw(IllegalState(ScopeStrategyNotSet))
    ensures EffectiveStrategy(old(ctx.scopeStrategy), ctx.container.localScopeStrategy).Some? ==>
              ScopedOutcome(EffectiveStrategy(old(ctx.scopeStrategy), ctx.container.localScopeStrategy).value, f.kind, r)
    ensures Delivers(ctx, f, r) && Forwards(ctx, f, r)
    decreases fuel, 0
  {
    var strategy := ctx.GetScopeStrategy(ctx.container.localScopeStrategy);
    if strategy.Throw? {
      return Throw(strategy.ex);
    }
    var answer := strategy.value.find(f.kind.scope, f.kind.typ, f.kind.name);
    var created: Outcome<Obj> := Ok(Null);
    if answer.CallFactory? {
      if fuel == 0 {
        created := Throw(OutOfFuel);
      } else {
        // the callable of `toCallable`: the inner factory on the same context
        created := Create(ctx, f.kind.inner, fuel - 1);
      }
    }
    StrategyResultUnchecked(answer, created);
    r := StrategyResult(answer, created);
    if answer.CallFactory? && created.Throw? && fuel > 0 {
      assert Delivers(ctx, f.kind.inner, Throw(created.ex));
    }
  }

  /** The number of arguments the constructor receives. */
  function ArgCount(ci: ConstructorInjector): nat {
    if ci.parameterInjectors.Some? then |ci.parameterInjectors.value| else 0
  }

  /** An injector has done its work on `t`: the field is set, or the method
      was called. */
  ghost predicate Applied(t: Instance, inj: Injector)
    reads t
  {
    match inj
    case FieldInjector(field, _, _) => field.ref.id in t.fields
    case MethodInjector(m, _) => exists k :: 0 <= k < |t.invocations| && t.invocations[k].0 == m.ref.id
  }

  /** `ConstructorInjector.construct`. */
  method Construct(ctx: Context, ci: ConstructorInjector, expectedType: ClassId, fuel: nat) returns (r: Outcome<Obj>)
    requires Ready(ctx) && ci in ctx.container.constructors.Values
    modifies ctx.Repr, ctx.container.Factories
    ensures Preserved(ctx)
    ensures ci in ctx.constructionContexts
    // Re-entered while its constructor runs: a proxy, never a second instance.
    ensures ci in old(ctx.constructionContexts) && old(ctx.constructionContexts[ci].constructing) ==>
              && ctx.constructionContexts == old(ctx.constructionContexts)
              && unchanged(ctx.container.Factories)
              && (expectedType !in ctx.container.interfaces ==>
                    && r == Throw(DependencyException(NotAnInterface(expectedType)))
                    && ctx.constructionContexts[ci].Handlers() == old(ctx.constructionContexts[ci].Handlers()))
              && (expectedType in ctx.container.interfaces ==>
                    && r.Ok? && r.value.Proxy? && r.value.iface == expectedType
                    && fresh(r.value.handler) && r.value.handler.delegate.None?
                    && ctx.constructionContexts[ci].Handlers()
                       == old(ctx.constructionContexts[ci].Handlers()) + [r.value.handler])
    // Re-entered while its members are injected: the instance being injected.
    ensures ci in old(ctx.constructionContexts) && !old(ctx.constructionContexts[ci].constructing)
            && old(ctx.constructionContexts[ci].currentReference).Some? ==>
              && r == Ok(InstanceRef(old(ctx.constructionContexts[ci].currentReference).value))
              && ctx.constructionContexts == old(ctx.constructionContexts)
              && unchanged(ctx.container.Factories)
    // First pass: a new, fully injected instance, and the context is idle again.
    ensures ci !in old(ctx.constructionContexts) || old(ctx.constructionContexts[ci].Idle()) ==>
              && ctx.constructionContexts[ci].Idle()
              && FirstPassOutcome(ci, r)
              && (r.Ok? ==> r.value.InstanceRef? && fresh(r.value.inst))
    decreases fuel, 10
  {
    var cc := ctx.GetConstructionContext(ci);
    var constructing := cc.IsConstructing();
    if constructing {
      r := IssueProxy(ctx, ci, cc, expectedType);
      return;
    }
    var current := cc.GetCurrentReference();
    if current.Some? {
      return Ok(InstanceRef(current.value));
    }
    r := ConstructFirstPass(ctx, ci, cc, fuel);
  }

  /** What the first pass through `construct` returns. */
  ghost predicate FirstPassOutcome(ci: ConstructorInjector, r: Outcome<Obj>)
    reads if r.Ok? && r.value.InstanceRef? then {r.value.inst} else {}
  {
    && (ci.ctor.throws.Some? ==> r.Throw?)
    && (r.Ok? ==> && r.value.InstanceRef?
                  && r.value.inst.cls == ci.implementation
                  && |r.value.inst.constructorArgs| == ArgCount(ci)
                  && forall i :: 0 <= i < |ci.injectors| ==> Applied(r.value.inst, ci.injectors[i]))
  }

  /** The first pass through `construct` (the outer `try`/`finally`): build
      the instance, publish it as the current reference while its members
      are injected, and always remove it again. */
  method ConstructFirstPass(ctx: Context, ci: ConstructorInjector, cc: ConstructionContext<Instance>, fuel: nat)
    returns (r: Outcome<Obj>)
    requires Ready(ctx) && ci in ctx.container.constructors.Values
    requires ci in ctx.constructionContexts && ctx.constructionContexts[ci] == cc && cc.Idle()
    modifies ctx.Repr, ctx.container.Factories
    ensures Preserved(ctx)
    ensures cc.Idle() && FirstPassOutcome(ci, r)
    ensures r.Ok? ==> r.value.InstanceRef? && fresh(r.value.inst)
    decreases fuel, 9
  {
    var made := ConstructInstance(ctx, ci, cc, fuel);
    if made.Throw? {
      return Throw(made.ex);
    }
    var t := made.value;
    var injected := InjectAsCurrent(ctx, ci, cc, t, fuel);
    if injected.Throw? {
      return Throw(injected.ex);
    }
    r := Ok(InstanceRef(t));
  }

  /** `construct` re-entered while the constructor of its binding runs: a
      proxy for the expected interface, whose handler is kept in the
      construction context until the instance exists. */
  method IssueProxy(ctx: Context, ci: ConstructorInjector, cc: ConstructionContext<Instance>, expectedType: ClassId)
    returns (r: Outcome<Obj>)
    requires Ready(ctx) && ci in ctx.constructionContexts && ctx.constructionContexts[ci] == cc && cc.constructing
    modifies ctx`Repr, cc`invocationHandlers
    ensures Preserved(ctx)
    ensures expectedType !in ctx.container.interfaces ==>
              && r == Throw(DependencyException(NotAnInterface(expectedType)))
              && cc.Handlers() == old(cc.Handlers())
    ensures expectedType in ctx.container.interfaces ==>
              && r.Ok? && r.value.Proxy? && r.value.iface == expectedType
              && fresh(r.value.handler) && r.value.handler.delegate.None?
              && cc.Handlers() == old(cc.Handlers()) + [r.value.handler]
  {
    var handler := cc.CreateProxy(expectedType, expectedType in ctx.container.interfaces);
    if handler.Throw? {
      return Throw(handler.ex);
    }
    ctx.Repr := ctx.Repr + {handler.value};
    r := Ok(Proxy(handler.value, expectedType));
  }

  /** The member phase of `construct`: `t` is the current reference while
      its members are injected, and is always removed again. */
  method InjectAsCurrent(ctx: Context, ci: ConstructorInjector, cc: ConstructionContext<Instance>, t: Instance, fuel: nat)
    returns (r: Outcome<()>)
    requires Ready(ctx) && ci in ctx.container.constructors.Values && t !in ctx.Repr
    requires ci in ctx.constructionContexts && ctx.constructionContexts[ci] == cc && cc.Idle()
    modifies ctx.Repr, ctx.container.Factories, t
    ensures Preserved(ctx) && cc.Idle()
    ensures r.Ok? ==> forall i :: 0 <= i < |ci.injectors| ==> Applied(t, ci.injectors[i])
    decreases fuel, 8
  {
    cc.SetCurrentReference(t);
    r := InjectMembers(ctx, ci.injectors, t, fuel);
    cc.RemoveCurrentReference();
  }

  /** The constructor phase of `construct` (the inner `try`/`finally`): with
      the context marked as constructing, build the instance, and always
      finish construction. */
  method ConstructInstance(ctx: Context, ci: ConstructorInjector, cc: ConstructionContext<Instance>, fuel: nat)
    returns (r: Outcome<Instance>)
    requires Ready(ctx) && ci in ctx.container.constructors.Values
    requires ci in ctx.constructionContexts && ctx.constructionContexts[ci] == cc && cc.Idle()
    modifies ctx.Repr, ctx.container.Factories
    ensures Preserved(ctx)
    ensures cc.Idle()
    ensures r.Ok? ==> && fresh(r.value) && r.value !in ctx.Repr && r.value.cls == ci.implementation
                      && |r.value.constructorArgs| == ArgCount(ci)
                      && r.value.fields == map[] && r.value.invocations == []
    ensures r.Ok? ==> forall h :: h in cc.released ==> h.delegate == Some(r.value)
    ensures ci.ctor.throws.Some? ==> r.Throw?
    decreases fuel, 6
  {
    cc.StartConstructing();
    r := BuildInstance(ctx, ci, cc, fuel);
    cc.FinishConstruction();
  }

  /** The body of the inner `try`: resolve the parameters, create the
      instance and hand it to every proxy issued meanwhile. A constructor
      that throws surfaces as a `RuntimeException` around the
      `InvocationTargetException`. */
  method BuildInstance(ctx: Context, ci: ConstructorInjector, cc: ConstructionContext<Instance>, fuel: nat)
    returns (r: Outcome<Instance>)
    requires Ready(ctx) && ci in ctx.container.constructors.Values
    requires ci in ctx.constructionContexts && ctx.constructionContexts[ci] == cc
    modifies ctx.Repr, ctx.container.Factories
    ensures Preserved(ctx)
    ensures r.Ok? ==> && fresh(r.value) && r.value !in ctx.Repr && r.value.cls == ci.implementation
                      && |r.value.constructorArgs| == ArgCount(ci)
                      && r.value.fields == map[] && r.value.invocations == []
    ensures r.Ok? ==> forall h :: h in cc.Handlers() ==> h.delegate == Some(r.value)
    ensures ci.ctor.throws.Some? ==> r.Throw?
    decreases fuel, 5
  {
    var parameters := GetParameters(ctx, ci.parameterInjectors, fuel);
    if parameters.Throw? {
      return Throw(parameters.ex);
    }
    if ci.ctor.throws.Some? {
      return Throw(Runtime(InvocationTarget(ci.ctor.throws.value)));
    }
    var args := if parameters.value.Some? then parameters.value.value else [];
    var t := new Instance(ci.implementation, args);
    cc.SetProxyDelegates(t);
    r := Ok(t);
  }

  /** `getParameters`: `null` for a constructor without parameter
      injectors, otherwise one resolved argument per injector. */
  method GetParameters(ctx: Context, pis: Option<seq<ParameterInjector>>, fuel: nat)
    returns (r: Outcome<Option<seq<Obj>>>)
    requires Ready(ctx) && (pis.Some? ==> ctx.container.ParameterInjectorsIn(pis.value))
    modifies ctx.Repr, ctx.container.Factories
    ensures Preserved(ctx)
    ensures pis.None? ==> r == Ok(None)
    ensures pis.Some? && r.Ok? ==> r.value.Some? && |r.value.value| == |pis.value|
    decreases fuel, 4
  {
    if pis.None? {
      return Ok(None);
    }
    var injectors := pis.value;
    var parameters := new Obj[|injectors|];
    for i := 0 to |injectors|
      invariant Preserved(ctx) && parameters !in ctx.Repr
    {
      var p := ParameterInject(ctx, injectors[i], fuel);
      if p.Throw? {
        return Throw(p.ex);
      }
      parameters[i] := p.value;
    }
    r := Ok(Some(parameters[..]));
  }

  /** `ParameterInjector.inject`. */
  method ParameterInject(ctx: Context, pi: ParameterInjector, fuel: nat) returns (r: Outcome<Obj>)
    requires Ready(ctx) && pi.factory in ctx.container.Factories
    modifies ctx.Repr, ctx.container.Factories
    ensures Preserved(ctx)
    ensures pi.factory.kind.LoggerFactory? ==> r == Ok(LoggerFor(pi.externalContext))
    ensures pi.factory.kind.ConstantFactory? ==> r == Ok(pi.factory.kind.value)
    decreases fuel, 3
  {
    r := CreateUnder(ctx, pi.externalContext, pi.factory, fuel);
  }

  /** The body shared by `ParameterInjector.inject` and
      `FieldInjector.inject`: create under the member's external context and
      restore the previous one, whatever the outcome. */
  method CreateUnder(ctx: Context, e: ExternalContext, f: InternalFactory, fuel: nat) returns (r: Outcome<Obj>)
    requires Ready(ctx) && f in ctx.container.Factories
    modifies ctx.Repr, ctx.container.Factories
    ensures Preserved(ctx)
    ensures f.kind.LoggerFactory? ==> r == Ok(LoggerFor(e))
    ensures f.kind.ConstantFactory? ==> r == Ok(f.kind.value)
    decreases fuel, 2
  {
    var previous := ctx.GetExternalContext();
    ctx.SetExternalContext(Some(e));
    r := Create(ctx, f, fuel);
    ctx.SetExternalContext(previous);
  }

  /** The injector loop of `construct`: every injector, in order, until one
      throws. */
  method InjectMembers(ctx: Context, injectors: seq<Injector>, t: Instance, fuel: nat) returns (r: Outcome<()>)
    requires Ready(ctx) && t !in ctx.Repr
    requires forall i :: 0 <= i < |injectors| ==> ctx.container.InjectorIn(injectors[i])
    modifies ctx.Repr, ctx.container.Factories, t
    ensures Preserved(ctx) && t !in ctx.Repr
    ensures old(t.fields).Keys <= t.fields.Keys && old(t.invocations) <= t.invocations
    ensures r.Ok? ==> forall i :: 0 <= i < |injectors| ==> Applied(t, injectors[i])
    decreases fuel, 7
  {
    for i := 0 to |injectors|
      invariant Preserved(ctx) && t !in ctx.Repr
      invariant old(t.fields).Keys <= t.fields.Keys && old(t.invocations) <= t.invocations
      invariant forall j :: 0 <= j < i ==> Applied(t, injectors[j])
    {
      ghost var before := t.invocations;
      var step := InjectOne(ctx, injectors[i], t, fuel);
      if step.Throw? {
        return Throw(step.ex);
      }
      assert forall j :: 0 <= j < i ==> Applied(t, injectors[j]) by {
        forall j | 0 <= j < i
          ensures Applied(t, injectors[j])
        {
          if injectors[j].MethodInjector? {
            var k :| 0 <= k < |before| && before[k].0 == injectors[j].meth.ref.id;
            assert t.invocations[k] == before[k];
          }
        }
      }
    }
    r := Ok(());
  }

  /** `Injector.inject`, by kind of injector. */
  method InjectOne(ctx: Context, inj: Injector, t: Instance, fuel: nat) returns (r: Outcome<()>)
    requires Ready(ctx) && t !in ctx.Repr && ctx.container.InjectorIn(inj)
    modifies ctx.Repr, ctx.container.Factories, t
    ensures Preserved(ctx) && t !in ctx.Repr
    ensures r.Ok? ==> Applied(t, inj)
    ensures old(t.fields).Keys <= t.fields.Keys && old(t.invocations) <= t.invocations
    decreases fuel, 6
  {
    match inj
    case FieldInjector(_, _, _) =>
      r := InjectField(ctx, inj, t, fuel);
    case MethodInjector(_, _) =>
      r := InjectMethod(ctx, inj, t, fuel);
  }

  /** `FieldInjector.inject`: the field is set to what its factory creates,
      under the field's external context, which is restored afterwards. */
  method InjectField(ctx: Context, inj: Injector, t: Instance, fuel: nat) returns (r: Outcome<()>)
    requires Ready(ctx) && t !in ctx.Repr && inj.FieldInjector? && ctx.container.InjectorIn(inj)
    modifies ctx.Repr, ctx.container.Factories, t
    ensures Preserved(ctx) && t !in ctx.Repr
    ensures t.invocations == old(t.invocations)
    ensures r.Throw? ==> t.fields == old(t.fields)
    ensures r.Ok? ==> && t.fields.Keys == old(t.fields).Keys + {inj.field.ref.id}
                      && forall k :: k in old(t.fields) && k != inj.field.ref.id ==> t.fields[k] == old(t.fields)[k]
    ensures inj.factory.kind.ConstantFactory? ==> r.Ok? && t.fields[inj.field.ref.id] == inj.factory.kind.value
    decreases fuel, 5
  {
    var v := CreateUnder(ctx, inj.externalContext, inj.factory, fuel);
    if v.Throw? {
      return Throw(v.ex);
    }
    t.fields := t.fields[inj.field.ref.id := v.value];
    r := Ok(());
  }

  /** `MethodInject.inject`: the method is called with its resolved
      parameters; any exception on the way comes back inside a
      `RuntimeException`. */
  method InjectMethod(ctx: Context, inj: Injector, t: Instance, fuel: nat) returns (r: Outcome<()>)
    requires Ready(ctx) && t !in ctx.Repr && inj.MethodInjector? && ctx.container.InjectorIn(inj)
    modifies ctx.Repr, ctx.container.Factories, t
    ensures Preserved(ctx) && t !in ctx.Repr
    ensures t.fields == old(t.fields)
    ensures old(t.invocations) <= t.invocations && |t.invocations| <= |old(t.invocations)| + 1
    ensures |t.invocations| > |old(t.invocations)| ==>
              && t.invocations[|old(t.invocations)|].0 == inj.meth.ref.id
              && |t.invocations[|old(t.invocations)|].1| == |inj.parameterInjectors|
    ensures r.Ok? ==> |t.invocations| > |old(t.invocations)|
    ensures r.Throw? && inj.meth.throws.None? ==> t.invocations == old(t.invocations)
    ensures inj.meth.throws.Some? ==> r.Throw?
    ensures r.Throw? ==> IsUnchecked(r.ex) || IsError(r.ex)
    decreases fuel, 5
  {
    var parameters := GetParameters(ctx, Some(inj.parameterInjectors), fuel);
    if parameters.Throw? {
      return Throw(WrapException(parameters.ex));
    }
    t.invocations := t.invocations + [(inj.meth.ref.id, parameters.value.value)];
    if inj.meth.throws.Some? {
      return Throw(WrapException(InvocationTarget(inj.meth.throws.value)));
    }
    r := Ok(());
  }
}
