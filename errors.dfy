/** Shared vocabulary of the container model: optional values, outcomes of
    calls that may throw, the exceptions the container raises, and binding keys. */
module Errors {

  datatype Option<+T> = None | Some(value: T)

  /** The result of a Java call: a returned value or a thrown exception. */
  datatype Outcome<+T> = Ok(value: T) | Throw(ex: Exception)

  /** A class (or interface) of the modelled program, by identity. */
  type ClassId = nat

  /** `Container.DEFAULT_NAME`, also the default `value()` of `@Inject`. */
  const DEFAULT_NAME: string := "default"

  /** A binding key: the dependency type and its name. */
  datatype Key = Key(typ: ClassId, name: string)

  /** Why a `DependencyException` was raised. */
  datatype Reason =
    | NotAnInterface(typ: ClassId)
    | AmbiguousConstructor(impl: ClassId)
    | NoSuitableConstructor(impl: ClassId)
    | NoParametersToInject(methodId: nat)
    | AlreadyMapped(key: Key)
    | Caused(cause: Exception)

  /** Why an `IllegalStateException` was raised. */
  datatype StateReason =
    | NotFinishedConstructing
    | ScopeStrategyNotSet
    | AlreadyCreated
    | NestedCreation

  /** How an exception thrown by user code (a constructor, an injected
      method, a scope strategy, a cache's `create`) is classified in Java. */
  datatype ThrowableKind = Checked | Unchecked | Fatal

  datatype Exception =
    | DependencyException(reason: Reason)
    | MissingDependency(key: Key)
    | IllegalState(why: StateReason)
    | NullPointer
    | IllegalArgument
    | Runtime(cause: Exception)
    | InvocationTarget(target: Exception)
    | IllegalAccess
    | Thrown(id: nat, kind: ThrowableKind)
    | OutOfFuel

  /** Subclasses of `java.lang.Error`. `OutOfFuel` marks the model's recursion
      bound and is treated like an error so that no `catch (Exception e)`
      rewraps it. */
  predicate IsError(e: Exception) {
    e.OutOfFuel? || (e.Thrown? && e.kind == Fatal)
  }

  /** Subclasses of `java.lang.RuntimeException`. */
  predicate IsUnchecked(e: Exception) {
    match e
    case DependencyException(_) => true
    case IllegalState(_) => true
    case NullPointer => true
    case IllegalArgument => true
    case Runtime(_) => true
    case Thrown(_, kind) => kind == Unchecked
    case _ => false
  }

  /** What a `catch (Exception e) { throw new RuntimeException(e); }` block
      lets escape: errors unchanged, every exception wrapped. */
  function WrapException(e: Exception): (r: Exception)
    ensures IsError(e) ==> r == e
    ensures !IsError(e) ==> r == Runtime(e) && IsUnchecked(r)
  {
    if IsError(e) then e else Runtime(e)
  }
}
