/** ReferenceCache.java: a `ReferenceMap` that computes missing values with
    the user's `create(K)`. One computation per key is pending at a time; a
    second caller for the same key waits for it, and a creation nested in
    another on the same thread is refused. `Thread`s and `Future`s are not
    modelled: a pending computation is a marker in `futures`, the calling
    thread's `localFuture` is a field, and waiting is the `Joined` result. */
module RefCache {
  import opened Errors
  import opened RefMap

  /** What `internalCreate` hands back: the outcome of this call's own
      computation, or the result of the pending computation `future`. */
  datatype Creation = Computed(outcome: Outcome<JObj>) | Joined(future: nat)

  /** The `ExecutionException` handler: a `RuntimeException` or `Error`
      cause is rethrown as it is, any other cause wrapped. */
  function Unwrap(cause: Exception): (r: Exception)
    ensures IsUnchecked(cause) || IsError(cause) ==> r == cause
    ensures !IsUnchecked(cause) && !IsError(cause) ==> r == Runtime(cause)
    ensures IsUnchecked(r) || IsError(r)
  {
    if IsUnchecked(cause) || IsError(cause) then cause else Runtime(cause)
  }

  class ReferenceCache {
    /** The inherited `ReferenceMap` state. */
    const store: ReferenceMap
    /** `create(K)`: a value, `null`, or an exception. */
    const create: JObj -> Outcome<Option<JObj>>
    /** `futures`: the pending computations, by key reference. */
    var futures: seq<Entry<nat>>
    /** The calling thread's `localFuture`. */
    var localFuture: Option<nat>
    /** The identity the next `FutureTask` gets. */
    var nextFuture: nat

    ghost predicate Valid()
      reads this, store
    {
      && store.Valid()
      && (forall i :: 0 <= i < |futures| ==>
            KeyShape(store.keyReferenceType, store.nextRef, futures[i].key) && futures[i].value < nextFuture)
      && UniqueKeys(store.reclaimed, futures)
    }

    constructor (store: ReferenceMap, create: JObj -> Outcome<Option<JObj>>)
      requires store.Valid()
      ensures Valid() && this.store == store && this.create == create
      ensures futures == [] && localFuture.None?
    {
      this.store := store;
      this.create := create;
      futures := [];
      localFuture := None;
      nextFuture := 0;
    }

    /** `CallableCreate.call`: the live cached value if there is one,
        otherwise what `create(key)` returns, a `null` rejected. */
    function Call(key: JObj): (r: Outcome<JObj>)
      reads store
      ensures store.InternalGet(key).Some? ==> r == Ok(store.InternalGet(key).value)
      ensures store.InternalGet(key).None? && create(key) == Ok(None) ==> r == Throw(NullPointer)
      ensures store.InternalGet(key).None? && create(key).Ok? && create(key).value.Some? ==> r == Ok(create(key).value.value)
      ensures store.InternalGet(key).None? && create(key).Throw? ==> r == Throw(create(key).ex)
    {
      var cached := store.InternalGet(key);
      if cached.Some? then Ok(cached.value)
      else
        match create(key)
        case Throw(e) => Throw(e)
        case Ok(None) => Throw(NullPointer)
        case Ok(Some(v)) => Ok(v)
    }

    /** `futures.remove(keyReference)`. */
    method RemoveFuture(keyRef: Ref)
      modifies this`futures
      ensures var i := FindIndex(store.reclaimed, ProbeOf(keyRef), old(futures));
              && (i < |old(futures)| ==> futures == old(futures)[..i] + old(futures)[i + 1..])
              && (i == |old(futures)| ==> futures == old(futures))
    {
      var i := FindIndex(store.reclaimed, ProbeOf(keyRef), futures);
      if i < |futures| {
        futures := futures[..i] + futures[i + 1..];
      }
    }

    /** The body of the winning thread's `futureTask`: run `call` and, when
        it produced a value, PUT it under the key reference. */
    method Compute(key: JObj, keyRef: Ref) returns (r: Outcome<JObj>)
      requires store.Valid() && KeyReferenceOf(store.keyReferenceType, key, keyRef)
      requires KeyShape(store.keyReferenceType, store.nextRef, keyRef)
      requires store.keyReferenceType != STRONG ==> forall k :: 0 <= k < |store.delegate| ==> store.delegate[k].key != keyRef
      modifies store`delegate, store`nextRef
      ensures store.Valid() && old(store.nextRef) <= store.nextRef
      ensures r == old(Call(key))
      ensures r.Throw? ==> store.delegate == old(store.delegate)
      ensures r.Ok? && key !in store.reclaimed ==>
                && (r.value !in store.reclaimed ==> store.InternalGet(key) == Some(r.value))
                && |store.delegate| == |old(store.delegate)| + (if old(store.Find(key)) < |old(store.delegate)| then 0 else 1)
      ensures forall other :: !SameKey(store.keyReferenceType, key, other) ==> store.InternalGet(other) == old(store.InternalGet(other))
    {
      r := Call(key);
      if r.Ok? {
        var valueRef := store.ReferenceValue(keyRef, r.value);
        KeyReferenceProbe(store.reclaimed, store.keyReferenceType, key, keyRef, store.delegate);
        ghost var i := store.Find(key);
        ghost var before := store.delegate;
        var _ := store.PutReferences(PUT, keyRef, valueRef);
        StrategyEffect(store.reclaimed, PUT, store.keyReferenceType, key, keyRef, valueRef, before, store.delegate);
        if key !in store.reclaimed {
          assert Matches(store.reclaimed, LookupProbe(store.keyReferenceType, key), store.delegate[i].key);
          FindsMatch(store.reclaimed, LookupProbe(store.keyReferenceType, key), store.delegate, i);
        }
      }
    }

    /** The winning thread's `try`/`finally`: `Attempt`, then `Finally`. */
    method Win(key: JObj, keyRef: Ref, task: nat, ghost pending: seq<Entry<nat>>) returns (r: Outcome<JObj>)
      requires Valid() && KeyReferenceOf(store.keyReferenceType, key, keyRef)
      requires store.keyReferenceType != STRONG ==> forall k :: 0 <= k < |store.delegate| ==> store.delegate[k].key != keyRef
      requires futures == pending + [Entry(keyRef, task)]
      requires forall k :: 0 <= k < |pending| ==> !Matches(store.reclaimed, ProbeOf(keyRef), pending[k].key)
      modifies this`localFuture, this`futures, store`delegate, store`nextRef
      ensures Valid() && futures == pending && localFuture.None?
      ensures old(localFuture).Some? ==> r == Throw(IllegalState(NestedCreation)) && store.delegate == old(store.delegate)
      ensures old(localFuture).None? ==>
                var c := old(Call(key));
                && (c.Throw? ==> r == Throw(Unwrap(c.ex)) && store.delegate == old(store.delegate))
                && (c.Ok? ==> r == c && (key !in store.reclaimed && c.value !in store.reclaimed ==> store.InternalGet(key) == Some(c.value)))
      ensures forall other :: !SameKey(store.keyReferenceType, key, other) ==> store.InternalGet(other) == old(store.InternalGet(other))
    {
      assert futures[|pending|].key == keyRef;
      assert forall k :: 0 <= k < |pending| ==> pending[k] == futures[k];
      assert UniqueKeys(store.reclaimed, pending);
      r := Attempt(key, keyRef, task);
      Finally(keyRef, task, pending);
    }

    /** The `try` block of the winner: refuse a nested creation, else note
        the future task in `localFuture`, run it, and apply the
        `ExecutionException` handler to what it threw. */
    method Attempt(key: JObj, keyRef: Ref, task: nat) returns (r: Outcome<JObj>)
      requires store.Valid() && KeyReferenceOf(store.keyReferenceType, key, keyRef)
      requires KeyShape(store.keyReferenceType, store.nextRef, keyRef)
      requires store.keyReferenceType != STRONG ==> forall k :: 0 <= k < |store.delegate| ==> store.delegate[k].key != keyRef
      modifies this`localFuture, store`delegate, store`nextRef
      ensures store.Valid() && old(store.nextRef) <= store.nextRef
      ensures old(localFuture).Some? ==> r == Throw(IllegalState(NestedCreation)) && store.delegate == old(store.delegate)
      ensures old(localFuture).None? ==>
                var c := old(Call(key));
                && (c.Throw? ==> r == Throw(Unwrap(c.ex)) && store.delegate == old(store.delegate))
                && (c.Ok? ==> r == c && (key !in store.reclaimed && c.value !in store.reclaimed ==> store.InternalGet(key) == Some(c.value)))
      ensures forall other :: !SameKey(store.keyReferenceType, key, other) ==> store.InternalGet(other) == old(store.InternalGet(other))
    {
      if localFuture.Some? {
        r := Throw(IllegalState(NestedCreation));
      } else {
        localFuture := Some(task);
        r := Compute(key, keyRef);
        if r.Throw? {
          r := Throw(Unwrap(r.ex));
        }
      }
    }

    /** The `finally` block of the winner: `localFuture.remove()` and
        `futures.remove(keyReference)`, which drops this call's marker. */
    method Finally(keyRef: Ref, task: nat, ghost pending: seq<Entry<nat>>)
      requires futures == pending + [Entry(keyRef, task)]
      requires forall k :: 0 <= k < |pending| ==> !Matches(store.reclaimed, ProbeOf(keyRef), pending[k].key)
      modifies this`localFuture, this`futures
      ensures futures == pending && localFuture.None?
    {
      localFuture := None;
      assert Matches(store.reclaimed, ProbeOf(keyRef), futures[|pending|].key);
      RemoveFuture(keyRef);
    }

    /** `internalCreate(key)`: register a marker for the key unless one is
        pending (then wait for it); the winner computes, and every way out
        of the winner clears the marker and `localFuture`. */
    method InternalCreate(key: JObj) returns (r: Creation)
      requires Valid()
      modifies this, store`delegate, store`nextRef
      ensures Valid() && store.reclaimed == old(store.reclaimed)
      ensures var j := FindIndex(store.reclaimed, LookupProbe(store.keyReferenceType, key), old(futures));
              && (j < |old(futures)| ==>
                    && r == Joined(old(futures)[j].value)
                    && futures == old(futures) && localFuture == old(localFuture) && store.delegate == old(store.delegate))
              && (j == |old(futures)| ==> futures == old(futures) && localFuture.None?)
              && (j == |old(futures)| && old(localFuture).Some? ==>
                    r == Computed(Throw(IllegalState(NestedCreation))) && store.delegate == old(store.delegate))
              && (j == |old(futures)| && old(localFuture).None? ==>
                    var c := old(Call(key));
                    && (c.Throw? ==> r == Computed(Throw(Unwrap(c.ex))) && store.delegate == old(store.delegate))
                    && (c.Ok? ==> r == Computed(c)
                                  && (key !in store.reclaimed && c.value !in store.reclaimed ==> store.InternalGet(key) == Some(c.value))))
      ensures forall other :: !SameKey(store.keyReferenceType, key, other) ==> store.InternalGet(other) == old(store.InternalGet(other))
    {
      var task := nextFuture;
      nextFuture := nextFuture + 1;
      var keyRef := store.ReferenceKey(key);
      KeyReferenceProbe(store.reclaimed, store.keyReferenceType, key, keyRef, futures);
      var j := FindIndex(store.reclaimed, ProbeOf(keyRef), futures);
      if j < |futures| {
        return Joined(futures[j].value);
      }
      ghost var pending := futures;
      AppendUnique(store.reclaimed, futures, Entry(keyRef, task));
      futures := futures + [Entry(keyRef, task)];
      var outcome := Win(key, keyRef, task, pending);
      r := Computed(outcome);
    }
  }

  /** `internalCreate` with the nesting check made first: a creation nested
      in one running on this thread is refused whatever its key, and leaves
      the running creation's marker and `localFuture` as they were. */
  method InternalCreateGuarded(cache: ReferenceCache, key: JObj) returns (r: Creation)
    requires cache.Valid()
    modifies cache, cache.store`delegate, cache.store`nextRef
    ensures cache.Valid()
    ensures old(cache.localFuture).Some? ==>
              && r == Computed(Throw(IllegalState(NestedCreation)))
              && cache.futures == old(cache.futures) && cache.localFuture == old(cache.localFuture)
              && cache.store.delegate == old(cache.store.delegate)
    ensures cache.store.reclaimed == old(cache.store.reclaimed)
    ensures old(cache.localFuture).None? ==> cache.futures == old(cache.futures) && cache.localFuture.None?
    ensures old(cache.localFuture).None? ==>
              var j := FindIndex(cache.store.reclaimed, LookupProbe(cache.store.keyReferenceType, key), old(cache.futures));
              && (j < |old(cache.futures)| ==>
                    r == Joined(old(cache.futures)[j].value) && cache.store.delegate == old(cache.store.delegate))
              && (j == |old(cache.futures)| ==>
                    var c := old(cache.Call(key));
                    && (c.Throw? ==> r == Computed(Throw(Unwrap(c.ex))) && cache.store.delegate == old(cache.store.delegate))
                    && (c.Ok? ==> r == Computed(c)
                                  && (key !in cache.store.reclaimed && c.value !in cache.store.reclaimed ==>
                                        cache.store.InternalGet(key) == Some(c.value))))
    ensures r.Joined? ==> old(cache.localFuture).None?
    ensures forall other :: !SameKey(cache.store.keyReferenceType, key, other) ==>
              cache.store.InternalGet(other) == old(cache.store.InternalGet(other))
  {
    if cache.localFuture.Some? {
      return Computed(Throw(IllegalState(NestedCreation)));
    }
    r := cache.InternalCreate(key);
  }

  /** A cache over a strong map whose values are their keys, with a
      creation for `running` under way on this thread: its marker is
      pending and it is the thread's `localFuture`. */
  method CreatingCache(running: JObj) returns (cache: ReferenceCache)
    ensures fresh(cache) && fresh(cache.store) && cache.Valid()
    ensures cache.store.keyReferenceType == STRONG && cache.store.delegate == []
    ensures cache.futures == [Entry(Strong(running), 0)] && cache.localFuture == Some(0)
    ensures forall k :: cache.create(k) == Ok(Some(k))
  {
    var store := new ReferenceMap(STRONG, STRONG);
    cache := new ReferenceCache(store, k => Ok(Some(k)));
    cache.futures := [Entry(Strong(running), 0)];
    cache.nextFuture := 1;
    cache.localFuture := Some(0);
  }

  /** As written, a creation nested in one for the same key finds the
      running creation's own marker and waits for its future: the thread
      waits for itself. */
  method SelfWaitAsWritten() returns (r: Creation)
    ensures r == Joined(0)
  {
    var key := JObj(0, 0);
    var cache := CreatingCache(key);
    assert FindIndex(cache.store.reclaimed, LookupProbe(STRONG, key), cache.futures) == 0;
    r := cache.InternalCreate(key);
  }

  /** Corrected, the same nested creation is refused. */
  method SelfWaitGuarded() returns (r: Creation)
    ensures r == Computed(Throw(IllegalState(NestedCreation)))
  {
    var key := JObj(0, 0);
    var cache := CreatingCache(key);
    r := InternalCreateGuarded(cache, key);
  }

  /** As written, refusing one nested creation clears the running
      creation's `localFuture`, so the next nested creation is computed. */
  method LostGuardAsWritten() returns (first: Creation, second: Creation)
    ensures first == Computed(Throw(IllegalState(NestedCreation)))
    ensures second == Computed(Ok(JObj(2, 2)))
  {
    var cache := CreatingCache(JObj(0, 0));
    assert FindIndex(cache.store.reclaimed, LookupProbe(STRONG, JObj(1, 1)), cache.futures) == 1;
    first := cache.InternalCreate(JObj(1, 1));
    assert FindIndex(cache.store.reclaimed, LookupProbe(STRONG, JObj(2, 2)), cache.futures) == 1;
    second := cache.InternalCreate(JObj(2, 2));
  }

  /** Corrected, both nested creations are refused. */
  method LostGuardGuarded() returns (first: Creation, second: Creation)
    ensures first == Computed(Throw(IllegalState(NestedCreation)))
    ensures second == Computed(Throw(IllegalState(NestedCreation)))
  {
    var cache := CreatingCache(JObj(0, 0));
    first := InternalCreateGuarded(cache, JObj(1, 1));
    second := InternalCreateGuarded(cache, JObj(2, 2));
  }

  /** The `ReferenceCache` constructors: the checks of `ReferenceMap`'s. */
  method NewReferenceCache(keyType: Option<ReferenceType>, valueType: Option<ReferenceType>,
                           create: JObj -> Outcome<Option<JObj>>)
    returns (r: Outcome<ReferenceCache>)
    ensures keyType.None? || valueType.None? ==> r == Throw(NullPointer)
    ensures keyType.Some? && valueType.Some? && (keyType.value == PHANTOM || valueType.value == PHANTOM) ==>
              r == Throw(IllegalArgument)
    ensures r.Ok? ==> && fresh(r.value) && fresh(r.value.store) && r.value.Valid() && r.value.create == create
                      && r.value.store.delegate == [] && r.value.futures == []
  {
    var m := NewReferenceMap(keyType, valueType);
    if m.Throw? {
      return Throw(m.ex);
    }
    var cache := new ReferenceCache(m.value, create);
    r := Ok(cache);
  }
}
