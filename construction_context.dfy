/** The per-binding construction state that breaks circular dependencies
    (ConstructionContext.java): whether the binding is being constructed, the
    instance whose members are being injected, and the delegation handles
    (proxies) handed out while the constructor was still running. */
module Construction {
  import opened Errors

  /** What `Method.invoke` on the delegate does: return a value, refuse
      access, reject the arguments, or report that the method threw. */
  datatype Reflective<+R> =
    | Returned(value: R)
    | AccessDenied
    | BadArguments
    | TargetThrew(target: Exception)

  /** `DelegatingInvocationHandler`: the handler behind one proxy. Every call
      on the proxy goes through `Invoke`. */
  class Handler<T> {
    var delegate: Option<T>

    constructor ()
      ensures delegate == None
    {
      delegate := None;
    }

    method SetDelegate(d: T)
      modifies this
      ensures delegate == Some(d)
    {
      delegate := Some(d);
    }

    /** A call on the proxy: `call` is the reflective call of the intercepted
        method on the delegate. Without a delegate every call fails fast. */
    method Invoke<R>(call: T -> Reflective<R>) returns (r: Outcome<R>)
      ensures delegate.None? ==> r == Throw(IllegalState(NotFinishedConstructing))
      ensures delegate.Some? && call(delegate.value).Returned? ==> r == Ok(call(delegate.value).value)
      ensures delegate.Some? && call(delegate.value).TargetThrew? ==> r == Throw(call(delegate.value).target)
      ensures delegate.Some? && call(delegate.value).AccessDenied? ==> r == Throw(Runtime(IllegalAccess))
      ensures delegate.Some? && call(delegate.value).BadArguments? ==> r == Throw(Runtime(IllegalArgument))
    {
      if delegate.None? {
        return Throw(IllegalState(NotFinishedConstructing));
      }
      var result := call(delegate.value);
      match result
      case Returned(v) => r := Ok(v);
      case AccessDenied => r := Throw(Runtime(IllegalAccess));
      case BadArguments => r := Throw(Runtime(IllegalArgument));
      case TargetThrew(e) => r := Throw(e);
    }
  }

  class ConstructionContext<T> {
    var currentReference: Option<T>
    var constructing: bool
    /** `null` until the first proxy is created. */
    var invocationHandlers: Option<seq<Handler<T>>>
    /** The handler list that the last `FinishConstruction` dropped. */
    ghost var released: seq<Handler<T>>

    /** The issued handlers, reading `null` as the empty list. */
    ghost function Handlers(): seq<Handler<T>>
      reads this
    {
      if invocationHandlers.Some? then invocationHandlers.value else []
    }

    /** Handlers exist only while the constructor runs. */
    ghost predicate Valid()
      reads this
    {
      !constructing ==> invocationHandlers.None?
    }

    /** Neither constructing nor injecting members. */
    ghost predicate Idle()
      reads this
    {
      !constructing && currentReference.None? && invocationHandlers.None?
    }

    constructor ()
      ensures Idle() && Valid() && released == []
    {
      currentReference := None;
      constructing := false;
      invocationHandlers := None;
      released := [];
    }

    method GetCurrentReference() returns (r: Option<T>)
      ensures r == currentReference
    {
      r := currentReference;
    }

    method RemoveCurrentReference()
      modifies this`currentReference
      ensures currentReference.None?
    {
      currentReference := None;
    }

    method SetCurrentReference(t: T)
      modifies this`currentReference
      ensures currentReference == Some(t)
    {
      currentReference := Some(t);
    }

    method IsConstructing() returns (b: bool)
      ensures b == constructing
    {
      b := constructing;
    }

    method StartConstructing()
      modifies this`constructing
      ensures constructing
    {
      constructing := true;
    }

    method FinishConstruction()
      modifies this`constructing, this`invocationHandlers, this`released
      ensures !constructing && invocationHandlers.None? && Valid()
      ensures released == old(Handlers())
    {
      released := Handlers();
      constructing := false;
      invocationHandlers := None;
    }

    /** Issues a new handle for `expectedType`, which must be an interface;
        the returned handler stands for the proxy object. */
    method CreateProxy(expectedType: ClassId, isInterface: bool) returns (r: Outcome<Handler<T>>)
      modifies this`invocationHandlers
      ensures !isInterface ==> r == Throw(DependencyException(NotAnInterface(expectedType)))
      ensures !isInterface ==> invocationHandlers == old(invocationHandlers)
      ensures isInterface ==> r.Ok? && fresh(r.value) && r.value.delegate.None?
      ensures isInterface ==> invocationHandlers == Some(old(Handlers()) + [r.value])
    {
      if !isInterface {
        return Throw(DependencyException(NotAnInterface(expectedType)));
      }
      if invocationHandlers.None? {
        invocationHandlers := Some([]);
      }
      var handler := new Handler<T>();
      invocationHandlers := Some(invocationHandlers.value + [handler]);
      r := Ok(handler);
    }

    /** Gives every issued handle the real instance as its delegate. */
    method SetProxyDelegates(d: T)
      modifies Handlers()
      ensures forall h :: h in Handlers() ==> h.delegate == Some(d)
    {
      if invocationHandlers.Some? {
        var handlers := invocationHandlers.value;
        for i := 0 to |handlers|
          invariant forall j :: 0 <= j < i ==> handlers[j].delegate == Some(d)
        {
          handlers[i].SetDelegate(d);
        }
      }
    }
  }
}
