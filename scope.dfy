/** The scopes of Scope.java and the pluggable strategy interface. How each
    scope wraps a factory at run time is part of `Injection.Create`; this
    module holds the scope names, the strategy a caller plugs in, and the
    result rule shared by the REQUEST, SESSION and WIZARD scopes. */
module Scoping {
  import opened Errors

  datatype Scope = DEFAULT | SINGLETON | THREAD | REQUEST | SESSION | WIZARD

  /** Which `Strategy.findInX` method a pluggable scope calls. */
  datatype StrategyScope = InRequest | InSession | InWizard

  /** What one `findInX(type, name, callable)` call does: hand back an
      instance it already holds, return what calling the callable produced,
      or throw. */
  datatype Answer<+V> = Stored(value: V) | CallFactory | Raise(ex: Exception)

  /** `Scope.Strategy`, supplied by the user of the container. */
  datatype Strategy<V> = Strategy(find: (StrategyScope, ClassId, string) -> Answer<V>)

  predicate IsPluggable(s: Scope) {
    s == REQUEST || s == SESSION || s == WIZARD
  }

  /** The strategy method each pluggable scope delegates to. */
  function StrategyScopeOf(s: Scope): (r: StrategyScope)
    requires IsPluggable(s)
    ensures s == REQUEST <==> r == InRequest
    ensures s == SESSION <==> r == InSession
    ensures s == WIZARD <==> r == InWizard
  {
    match s
    case REQUEST => InRequest
    case SESSION => InSession
    case WIZARD => InWizard
  }

  /** The result of a pluggable scope's `create` once the strategy has been
      obtained: `created` is what the wrapped factory produced when the
      strategy called the callable (ignored otherwise). Every exception that
      leaves the strategy comes back wrapped in a `RuntimeException`. */
  function StrategyResult<V>(answer: Answer<V>, created: Outcome<V>): (r: Outcome<V>)
    ensures answer.Stored? ==> r == Ok(answer.value)
    ensures answer.CallFactory? && created.Ok? ==> r == created
    ensures answer.CallFactory? && created.Throw? ==> r == Throw(WrapException(created.ex))
    ensures answer.Raise? ==> r == Throw(WrapException(answer.ex))
  {
    match answer
    case Stored(v) => Ok(v)
    case Raise(e) => Throw(WrapException(e))
    case CallFactory =>
      match created
      case Ok(v) => Ok(v)
      case Throw(e) => Throw(WrapException(e))
  }

  /** What may leave a pluggable scope: only unchecked exceptions and errors. */
  lemma StrategyResultUnchecked<V>(answer: Answer<V>, created: Outcome<V>)
    ensures StrategyResult(answer, created).Throw? ==>
              IsUnchecked(StrategyResult(answer, created).ex) || IsError(StrategyResult(answer, created).ex)
  {
  }
}
