/** ReferenceMap.java: a map whose keys and values may be held through soft
    or weak references. A strong key is found by `equals`; a soft or weak key
    only by identity with its live referent. The collector is explicit here:
    `reclaimed` is the set of objects it has reclaimed, a reference to one of
    them dereferences to `null`, and `FinalizeReferent` is the cleanup the
    reference queue runs for a cleared reference. */
module RefMap {
  import opened Errors

  datatype ReferenceType = STRONG | SOFT | WEAK | PHANTOM

  /** A Java object used as a key or value: the whole value is its identity,
      `content` is what `equals` compares. */
  datatype JObj = JObj(id: nat, content: int)

  predicate Equal(a: JObj, b: JObj) {
    a.content == b.content
  }

  /** What the delegate map holds: the object itself, or a soft or weak
      reference object with its own identity `refId`. A value reference
      remembers the key reference it was made for. */
  datatype Ref =
    | Strong(obj: JObj)
    | Reclaimable(refId: nat, referent: JObj, keyReference: Option<Ref>)

  datatype Entry<V> = Entry(key: Ref, value: V)

  /** `dereference`: the referent, `null` once it has been reclaimed. */
  function Deref(gone: set<JObj>, r: Ref): (o: Option<JObj>)
    ensures r.Strong? ==> o == Some(r.obj)
    ensures r.Reclaimable? ==> (o.None? <==> r.referent in gone) && (o.Some? ==> o.value == r.referent)
  {
    if r.Strong? then Some(r.obj)
    else if r.referent in gone then None
    else Some(r.referent)
  }

  /** What the delegate map is probed with: the key itself (strong keys), a
      `KeyReferenceAwareWrapper` around it (lookups of soft or weak keys), or
      a reference object (puts and cleanup). */
  datatype Probe = Plain(obj: JObj) | Wrapper(wrapped: JObj) | Reference(ref: Ref)

  /** `referenceEquals(r, o)`: against a reference, the same reference or
      the same live referent; against a wrapper, identity of the wrapped
      object with the live referent. */
  function ReferenceEquals(gone: set<JObj>, r: Ref, o: Probe): (b: bool)
    requires r.Reclaimable? && !o.Plain?
    ensures o.Reference? && o.ref == r ==> b
    ensures o.Wrapper? ==> (b <==> r.referent !in gone && r.referent == o.wrapped)
    ensures o.Reference? && o.ref != r && Deref(gone, o.ref).None? ==> !b
    ensures o.Reference? && o.ref != r && Deref(gone, o.ref).Some? ==>
              (b <==> r.referent !in gone && Deref(gone, o.ref).value == r.referent)
  {
    match o
    case Reference(q) =>
      if q == r then true
      else
        var referent := Deref(gone, q);
        referent.Some? && referent == Deref(gone, r)
    case Wrapper(w) =>
      Deref(gone, r) == Some(w)
  }

  /** Whether the delegate map treats `stored` as the probed key: the probe's
      `equals` decides, with references deferring to `referenceEquals`. */
  function Matches(gone: set<JObj>, p: Probe, stored: Ref): (b: bool)
    ensures p.Plain? ==> (b <==> stored.Strong? && Equal(p.obj, stored.obj))
    ensures p.Wrapper? ==> (b <==> stored.Reclaimable? && stored.referent == p.wrapped && p.wrapped !in gone)
    ensures p.Reference? && p.ref.Reclaimable? && p.ref.referent in gone ==> (b <==> stored == p.ref)
  {
    match p
    case Plain(o) => stored.Strong? && Equal(o, stored.obj)
    case Wrapper(_) => stored.Reclaimable? && ReferenceEquals(gone, stored, p)
    case Reference(q) => q.Reclaimable? && stored.Reclaimable? && ReferenceEquals(gone, q, Reference(stored))
  }

  /** The probe a lookup of `key` uses (`makeKeyReferenceAware`). */
  function LookupProbe(keyType: ReferenceType, key: JObj): Probe {
    if keyType == STRONG then Plain(key) else Wrapper(key)
  }

  /** The probe a key reference is looked up with when it is itself the key. */
  function ProbeOf(keyRef: Ref): Probe {
    if keyRef.Strong? then Plain(keyRef.obj) else Reference(keyRef)
  }

  /** The position of the entry the probe finds, `|es|` when there is none. */
  function FindIndex<V>(gone: set<JObj>, p: Probe, es: seq<Entry<V>>): (i: nat)
    ensures i <= |es|
    ensures i < |es| ==> Matches(gone, p, es[i].key)
    ensures forall j :: 0 <= j < i ==> !Matches(gone, p, es[j].key)
  {
    if es == [] then 0
    else if Matches(gone, p, es[0].key) then 0
    else
      var i := 1 + FindIndex(gone, p, es[1..]);
      assert forall j :: 1 <= j < i ==> es[j] == es[1..][j - 1];
      i
  }

  /** Two stored keys the map could not tell apart. */
  predicate Collide(gone: set<JObj>, a: Ref, b: Ref) {
    || (a.Strong? && b.Strong? && Equal(a.obj, b.obj))
    || (a.Reclaimable? && b.Reclaimable? && Deref(gone, a).Some? && Deref(gone, a) == Deref(gone, b))
  }

  /** The hash map invariant: distinct keys, no two of them indistinguishable. */
  predicate UniqueKeys<V>(gone: set<JObj>, es: seq<Entry<V>>) {
    forall i, j :: 0 <= i < j < |es| ==> es[i].key != es[j].key && !Collide(gone, es[i].key, es[j].key)
  }

  /** A key as `referenceKey` makes it for a map with key type `t`. */
  predicate KeyShape(t: ReferenceType, next: nat, r: Ref) {
    && (t == STRONG <==> r.Strong?)
    && (r.Reclaimable? ==> r.keyReference.None? && r.refId < next)
  }

  /** A value as `referenceValue` makes it for a map with value type `t`. */
  predicate ValueShape(t: ReferenceType, next: nat, r: Ref) {
    && (t == STRONG <==> r.Strong?)
    && (r.Reclaimable? ==> r.keyReference.Some? && r.refId < next)
  }

  /** Under the hash map invariant a probe finds at most one entry. */
  lemma {:induction false} AtMostOneMatch<V>(gone: set<JObj>, p: Probe, es: seq<Entry<V>>, i: nat, j: nat)
    requires UniqueKeys(gone, es) && i < |es| && j < |es|
    requires Matches(gone, p, es[i].key) && Matches(gone, p, es[j].key)
    ensures i == j
  {
  }

  /** The entry a probe matches is the one it finds. */
  lemma FindsMatch<V>(gone: set<JObj>, p: Probe, es: seq<Entry<V>>, i: nat)
    requires UniqueKeys(gone, es) && i < |es| && Matches(gone, p, es[i].key)
    ensures FindIndex(gone, p, es) == i
  {
    var f := FindIndex(gone, p, es);
    if f != i {
      AtMostOneMatch(gone, p, es, f, i);
    }
  }

  /** A key no stored key answers to can be added without breaking the
      hash map invariant. */
  lemma AppendUnique<V>(gone: set<JObj>, es: seq<Entry<V>>, e: Entry<V>)
    requires UniqueKeys(gone, es)
    requires forall k :: 0 <= k < |es| ==> !Matches(gone, ProbeOf(e.key), es[k].key)
    ensures UniqueKeys(gone, es + [e])
  {
    forall k | 0 <= k < |es|
      ensures es[k].key != e.key && !Collide(gone, es[k].key, e.key)
    {
      assert !Matches(gone, ProbeOf(e.key), es[k].key);
    }
  }

  /** Removing one entry keeps the hash map invariant and every other entry. */
  lemma RemoveAt<V>(gone: set<JObj>, es: seq<Entry<V>>, i: nat)
    requires i < |es|
    ensures var rest := es[..i] + es[i + 1..];
            && |rest| == |es| - 1
            && (forall k :: 0 <= k < |rest| ==> rest[k] == es[if k < i then k else k + 1])
            && (UniqueKeys(gone, es) ==> UniqueKeys(gone, rest))
            && forall e :: e in es && e != es[i] ==> e in rest
  {
    var rest := es[..i] + es[i + 1..];
    assert forall k :: 0 <= k < |rest| ==> rest[k] == es[if k < i then k else k + 1];
    forall e | e in es && e != es[i]
      ensures e in rest
    {
      var k :| 0 <= k < |es| && es[k] == e;
      assert rest[if k < i then k else k - 1] == e;
    }
  }

  /** Two probes that agree on every stored key find the same entry. */
  lemma {:induction false} FindIndexSame<V>(gone: set<JObj>, p: Probe, q: Probe, es: seq<Entry<V>>)
    requires forall k :: 0 <= k < |es| ==> Matches(gone, p, es[k].key) == Matches(gone, q, es[k].key)
    ensures FindIndex(gone, p, es) == FindIndex(gone, q, es)
  {
    if es != [] {
      assert forall k :: 0 <= k < |es[1..]| ==> es[1..][k] == es[k + 1];
      FindIndexSame(gone, p, q, es[1..]);
    }
  }

  /** `keyRef` is what `referenceKey(key)` makes for key type `t`. */
  predicate KeyReferenceOf(t: ReferenceType, key: JObj, keyRef: Ref) {
    if t == STRONG then keyRef == Strong(key)
    else keyRef.Reclaimable? && keyRef.referent == key && keyRef.keyReference.None?
  }

  /** Two keys a lookup cannot tell apart: equal strong keys, or the same
      object as a soft or weak key. */
  predicate SameKey(t: ReferenceType, a: JObj, b: JObj) {
    if t == STRONG then Equal(a, b) else a == b
  }

  /** A stored key that answers lookups of both `a` and `b` makes them the
      same key. */
  lemma SharedMatch(gone: set<JObj>, t: ReferenceType, a: JObj, b: JObj, stored: Ref)
    requires Matches(gone, LookupProbe(t, a), stored) && Matches(gone, LookupProbe(t, b), stored)
    ensures SameKey(t, a, b)
  {
  }

  /** Growing the entries while keeping the keys already there does not move
      a match, and does not create one among the old positions. */
  lemma FindIndexPrefix<V>(gone: set<JObj>, p: Probe, es: seq<Entry<V>>, es2: seq<Entry<V>>)
    requires |es| <= |es2| && forall k :: 0 <= k < |es| ==> es2[k].key == es[k].key
    ensures FindIndex(gone, p, es) < |es| ==> FindIndex(gone, p, es2) == FindIndex(gone, p, es)
    ensures FindIndex(gone, p, es) == |es| ==> FindIndex(gone, p, es2) >= |es|
  {
    var i, j := FindIndex(gone, p, es), FindIndex(gone, p, es2);
    if i < |es| {
      assert Matches(gone, p, es2[i].key);
    }
    if j < |es| {
      assert Matches(gone, p, es[j].key);
    }
  }

  /** A put of `key` (a change at the entry its lookup finds, or one entry
      appended under its key reference) leaves a lookup of any other key
      finding the same entry with the same value, or nothing. */
  lemma OtherKeyKept<V>(gone: set<JObj>, t: ReferenceType, key: JObj, keyRef: Ref, other: JObj, es: seq<Entry<V>>, es2: seq<Entry<V>>)
    requires KeyReferenceOf(t, key, keyRef) && !SameKey(t, key, other)
    requires |es| <= |es2| <= |es| + 1 && (|es2| > |es| ==> es2[|es|].key == keyRef)
    requires forall k :: 0 <= k < |es| ==> es2[k].key == es[k].key
    requires forall k :: 0 <= k < |es| && k != FindIndex(gone, LookupProbe(t, key), es) ==> es2[k] == es[k]
    ensures var q := LookupProbe(t, other);
            && (FindIndex(gone, q, es) < |es| ==>
                  FindIndex(gone, q, es2) == FindIndex(gone, q, es) && es2[FindIndex(gone, q, es)] == es[FindIndex(gone, q, es)])
            && (FindIndex(gone, q, es) == |es| ==> FindIndex(gone, q, es2) == |es2|)
  {
    var q := LookupProbe(t, other);
    var i := FindIndex(gone, LookupProbe(t, key), es);
    FindIndexPrefix(gone, q, es, es2);
    var m := FindIndex(gone, q, es);
    if m < |es| && m == i {
      SharedMatch(gone, t, key, other, es[i].key);
    }
    if m == |es| && |es2| > |es| {
      assert !Matches(gone, q, es2[|es|].key);
    }
  }

  /** What a strategy did to the entries, seen from lookups: a lookup of
      the key finds the changed or appended entry, every other key is found
      where it was with its value, or not at all. */
  lemma StrategyEffect(gone: set<JObj>, strategy: PutStrategy, t: ReferenceType, key: JObj, keyRef: Ref, valueRef: Ref,
                       es: seq<Entry<Ref>>, es2: seq<Entry<Ref>>)
    requires KeyReferenceOf(t, key, keyRef) && UniqueKeys(gone, es2)
    requires t != STRONG ==> forall k :: 0 <= k < |es| ==> es[k].key != keyRef
    requires var i := FindIndex(gone, ProbeOf(keyRef), es);
             && (i < |es| && strategy != PUT_IF_ABSENT ==> es2 == es[i := Entry(es[i].key, valueRef)])
             && (i < |es| && strategy == PUT_IF_ABSENT ==> es2 == es)
             && (i == |es| && strategy != REPLACE ==> es2 == es + [Entry(keyRef, valueRef)])
             && (i == |es| && strategy == REPLACE ==> es2 == es)
    ensures var i := FindIndex(gone, LookupProbe(t, key), es);
            && FindIndex(gone, ProbeOf(keyRef), es) == i
            && |es| <= |es2| && (forall k :: 0 <= k < |es| ==> es2[k].key == es[k].key)
            && (!Stores(strategy, i < |es|) ==> es2 == es)
            && (Stores(strategy, i < |es|) ==>
                  && i < |es2| && es2[i].value == valueRef
                  && (key !in gone ==> FindIndex(gone, LookupProbe(t, key), es2) == i)
                  && |es2| == |es| + (if i < |es| then 0 else 1)
                  && forall k :: 0 <= k < |es| && k != i ==> es2[k] == es[k])
    ensures forall other :: !SameKey(t, key, other) ==>
              var q := LookupProbe(t, other);
              && (FindIndex(gone, q, es) < |es| ==>
                    FindIndex(gone, q, es2) == FindIndex(gone, q, es) && es2[FindIndex(gone, q, es)] == es[FindIndex(gone, q, es)])
              && (FindIndex(gone, q, es) == |es| ==> FindIndex(gone, q, es2) == |es2|)
  {
    KeyReferenceProbe(gone, t, key, keyRef, es);
    var lookup := LookupProbe(t, key);
    var i := FindIndex(gone, lookup, es);
    if Stores(strategy, i < |es|) && key !in gone {
      assert Matches(gone, lookup, es2[i].key);
      FindsMatch(gone, lookup, es2, i);
    }
    forall other | !SameKey(t, key, other)
      ensures var q := LookupProbe(t, other);
              && (FindIndex(gone, q, es) < |es| ==>
                    FindIndex(gone, q, es2) == FindIndex(gone, q, es) && es2[FindIndex(gone, q, es)] == es[FindIndex(gone, q, es)])
              && (FindIndex(gone, q, es) == |es| ==> FindIndex(gone, q, es2) == |es2|)
    {
      OtherKeyKept(gone, t, key, keyRef, other, es, es2);
    }
  }

  /** A key reference not yet stored finds what a lookup of its key finds:
      both match exactly the stored keys a lookup would, or nothing once the
      key itself has been reclaimed. */
  lemma {:induction false} KeyReferenceProbe<V>(gone: set<JObj>, keyType: ReferenceType, key: JObj, keyRef: Ref, es: seq<Entry<V>>)
    requires KeyReferenceOf(keyType, key, keyRef)
    requires keyType != STRONG ==> forall k :: 0 <= k < |es| ==> es[k].key != keyRef
    ensures FindIndex(gone, ProbeOf(keyRef), es) == FindIndex(gone, LookupProbe(keyType, key), es)
  {
    forall k | 0 <= k < |es|
      ensures Matches(gone, ProbeOf(keyRef), es[k].key) == Matches(gone, LookupProbe(keyType, key), es[k].key)
    {
    }
    FindIndexSame(gone, ProbeOf(keyRef), LookupProbe(keyType, key), es);
  }

  /** The entries `entrySet` reports: those whose key and value are both
      still live, dereferenced. */
  function LiveEntries(gone: set<JObj>, es: seq<Entry<Ref>>): (r: seq<(JObj, JObj)>)
    ensures |r| <= |es|
  {
    if es == [] then []
    else
      var k := Deref(gone, es[0].key);
      var v := Deref(gone, es[0].value);
      (if k.Some? && v.Some? then [(k.value, v.value)] else []) + LiveEntries(gone, es[1..])
  }

  /** A pair is reported exactly when some entry dereferences to it. */
  lemma {:induction false} LiveEntriesMeaning(gone: set<JObj>, es: seq<Entry<Ref>>, k: JObj, v: JObj)
    ensures (k, v) in LiveEntries(gone, es) <==>
              exists i :: 0 <= i < |es| && Deref(gone, es[i].key) == Some(k) && Deref(gone, es[i].value) == Some(v)
  {
    if es != [] {
      LiveEntriesMeaning(gone, es[1..], k, v);
      if (k, v) in LiveEntries(gone, es[1..]) {
        var i :| 0 <= i < |es[1..]| && Deref(gone, es[1..][i].key) == Some(k) && Deref(gone, es[1..][i].value) == Some(v);
        assert es[i + 1] == es[1..][i];
      }
      if exists i :: 0 <= i < |es| && Deref(gone, es[i].key) == Some(k) && Deref(gone, es[i].value) == Some(v) {
        var i :| 0 <= i < |es| && Deref(gone, es[i].key) == Some(k) && Deref(gone, es[i].value) == Some(v);
        if i > 0 {
          assert es[1..][i - 1] == es[i];
        }
      }
    }
  }

  /** The collection `dereferenceCollection` adds to: a list keeps every
      element; a `HashSet` does not add one that `equals` an element it
      already holds (one `null` at most). */
  datatype Collection = ArrayList | HashSet

  /** Java `equals` between possibly-null collection elements. */
  predicate SameElement(a: Option<JObj>, b: Option<JObj>) {
    (a.None? && b.None?) || (a.Some? && b.Some? && Equal(a.value, b.value))
  }

  /** `s.contains(x)`. */
  predicate Contains(s: seq<Option<JObj>>, x: Option<JObj>) {
    exists j :: 0 <= j < |s| && SameElement(s[j], x)
  }

  /** No two elements `equals` each other, as in a set. */
  predicate Distinct(s: seq<Option<JObj>>) {
    forall a, b :: 0 <= a < b < |s| ==> !SameElement(s[a], s[b])
  }

  /** Some entry's live value `equals` the given one. */
  predicate HoldsValue(gone: set<JObj>, es: seq<Entry<Ref>>, value: JObj) {
    exists i :: 0 <= i < |es| && Deref(gone, es[i].value).Some? && Equal(value, Deref(gone, es[i].value).value)
  }

  /** The position of the first pair with a `null` key or value, `|pairs|`
      when there is none. */
  function FirstNull(pairs: seq<(Option<JObj>, Option<JObj>)>): (n: nat)
    ensures n <= |pairs|
    ensures forall i :: 0 <= i < n ==> pairs[i].0.Some? && pairs[i].1.Some?
    ensures n < |pairs| ==> pairs[n].0.None? || pairs[n].1.None?
  {
    if pairs == [] || pairs[0].0.None? || pairs[0].1.None? then 0
    else
      var n := 1 + FirstNull(pairs[1..]);
      assert forall i :: 1 <= i < n ==> pairs[i] == pairs[1..][i - 1];
      n
  }

  /** The live value of the entry a lookup of `key` finds, if any. */
  function Lookup(gone: set<JObj>, t: ReferenceType, es: seq<Entry<Ref>>, key: JObj): Option<JObj> {
    var i := FindIndex(gone, LookupProbe(t, key), es);
    if i == |es| then None else Deref(gone, es[i].value)
  }

  /** After the first `n` pairs have been put into `es`: each pair whose key
      no later one among them repeats is what a lookup of its key finds,
      while both key and value are live. */
  ghost predicate Held(gone: set<JObj>, t: ReferenceType, es: seq<Entry<Ref>>, pairs: seq<(Option<JObj>, Option<JObj>)>, n: nat)
    requires n <= |pairs|
  {
    forall i :: 0 <= i < n && pairs[i].0.Some? && pairs[i].1.Some?
                && pairs[i].0.value !in gone && pairs[i].1.value !in gone
                && (forall j :: i < j < n && pairs[j].0.Some? ==> !SameKey(t, pairs[i].0.value, pairs[j].0.value))
                ==> Lookup(gone, t, es, pairs[i].0.value) == Some(pairs[i].1.value)
  }

  /** A put of pair `n` keeps what the earlier pairs hold, except where it
      repeats their key, and holds its own pair. */
  lemma HeldStep(gone: set<JObj>, t: ReferenceType, es: seq<Entry<Ref>>, es2: seq<Entry<Ref>>,
                 pairs: seq<(Option<JObj>, Option<JObj>)>, n: nat)
    requires n < |pairs| && pairs[n].0.Some? && pairs[n].1.Some? && Held(gone, t, es, pairs, n)
    requires pairs[n].0.value !in gone && pairs[n].1.value !in gone ==> Lookup(gone, t, es2, pairs[n].0.value) == Some(pairs[n].1.value)
    requires forall other :: !SameKey(t, pairs[n].0.value, other) ==> Lookup(gone, t, es2, other) == Lookup(gone, t, es, other)
    ensures Held(gone, t, es2, pairs, n + 1)
  {
    forall i | 0 <= i < n + 1 && pairs[i].0.Some? && pairs[i].1.Some?
               && pairs[i].0.value !in gone && pairs[i].1.value !in gone
               && (forall j :: i < j < n + 1 && pairs[j].0.Some? ==> !SameKey(t, pairs[i].0.value, pairs[j].0.value))
      ensures Lookup(gone, t, es2, pairs[i].0.value) == Some(pairs[i].1.value)
    {
      if i < n {
        assert !SameKey(t, pairs[i].0.value, pairs[n].0.value);
      }
    }
  }

  /** `PutStrategy`: PUT, REPLACE and PU_IF_ABSENT. */
  datatype PutStrategy = PUT | REPLACE | PUT_IF_ABSENT

  /** Whether a strategy stores the new value, given whether the key was
      found: PUT always, REPLACE only over an entry, PU_IF_ABSENT only
      without one. */
  predicate Stores(strategy: PutStrategy, found: bool) {
    match strategy
    case PUT => true
    case REPLACE => found
    case PUT_IF_ABSENT => !found
  }

  /** `ensureNotNull(Object...)`: the first `null` argument throws. */
  method EnsureNotNull(args: seq<Option<JObj>>) returns (r: Outcome<()>)
    ensures r.Throw? <==> exists i :: 0 <= i < |args| && args[i].None?
    ensures r.Throw? ==> r.ex == NullPointer
  {
    for i := 0 to |args|
      invariant forall j :: 0 <= j < i ==> args[j].Some?
    {
      if args[i].None? {
        return Throw(NullPointer);
      }
    }
    r := Ok(());
  }

  class ReferenceMap {
    const keyReferenceType: ReferenceType
    const valueReferenceType: ReferenceType
    var delegate: seq<Entry<Ref>>
    /** The objects the collector has reclaimed. */
    var reclaimed: set<JObj>
    /** The identity the next reference object gets. */
    var nextRef: nat

    ghost predicate Valid()
      reads this
    {
      && keyReferenceType != PHANTOM && valueReferenceType != PHANTOM
      && (forall i :: 0 <= i < |delegate| ==>
            KeyShape(keyReferenceType, nextRef, delegate[i].key)
            && ValueShape(valueReferenceType, nextRef, delegate[i].value))
      && UniqueKeys(reclaimed, delegate)
    }

    constructor (keyReferenceType: ReferenceType, valueReferenceType: ReferenceType)
      requires keyReferenceType != PHANTOM && valueReferenceType != PHANTOM
      ensures Valid() && delegate == [] && reclaimed == {}
      ensures this.keyReferenceType == keyReferenceType && this.valueReferenceType == valueReferenceType
    {
      this.keyReferenceType := keyReferenceType;
      this.valueReferenceType := valueReferenceType;
      delegate := [];
      reclaimed := {};
      nextRef := 0;
    }

    /** The entry a lookup of `key` finds, `|delegate|` when none. */
    function Find(key: JObj): (i: nat)
      reads this
      ensures i <= |delegate|
    {
      FindIndex(reclaimed, LookupProbe(keyReferenceType, key), delegate)
    }

    /** `get`: the live value mapped to `key`, `null` when there is none or
        it has been reclaimed. */
    function Get(key: Option<JObj>): (r: Outcome<Option<JObj>>)
      reads this
      ensures key.None? <==> r == Throw(NullPointer)
      ensures r.Ok? && r.value.Some? ==>
                exists i :: 0 <= i < |delegate| && Matches(reclaimed, LookupProbe(keyReferenceType, key.value), delegate[i].key)
                            && Deref(reclaimed, delegate[i].value) == r.value
      ensures key.Some? && (forall i :: 0 <= i < |delegate| ==> !Matches(reclaimed, LookupProbe(keyReferenceType, key.value), delegate[i].key))
              ==> r == Ok(None)
    {
      if key.None? then Throw(NullPointer) else Ok(InternalGet(key.value))
    }

    /** `internalGet`: `get` without the `null` check. */
    function InternalGet(key: JObj): (r: Option<JObj>)
      reads this
      ensures r.Some? ==>
                exists i :: 0 <= i < |delegate| && Matches(reclaimed, LookupProbe(keyReferenceType, key), delegate[i].key)
                            && Deref(reclaimed, delegate[i].value) == r
      ensures (forall i :: 0 <= i < |delegate| ==> !Matches(reclaimed, LookupProbe(keyReferenceType, key), delegate[i].key))
              ==> r.None?
    {
      Lookup(reclaimed, keyReferenceType, delegate, key)
    }

    /** Under the map invariant, the value `get` answers is the one of any
        entry a lookup of the key matches. */
    lemma GetMatching(key: JObj, i: nat)
      requires Valid() && i < |delegate|
      requires Matches(reclaimed, LookupProbe(keyReferenceType, key), delegate[i].key)
      ensures Get(Some(key)) == Ok(Deref(reclaimed, delegate[i].value))
    {
      AtMostOneMatch(reclaimed, LookupProbe(keyReferenceType, key), delegate, i, Find(key));
    }

    /** `containsKey`: whether some entry answers a lookup of `key`. */
    function ContainsKey(key: Option<JObj>): (r: Outcome<bool>)
      reads this
      ensures key.None? <==> r == Throw(NullPointer)
      ensures key.Some? ==>
                (r == Ok(true) <==> exists i :: 0 <= i < |delegate| && Matches(reclaimed, LookupProbe(keyReferenceType, key.value), delegate[i].key))
    {
      if key.None? then Throw(NullPointer) else Ok(Find(key.value) < |delegate|)
    }

    /** `containsValue`: scans the values for a live one that `equals` it. */
    method ContainsValue(value: Option<JObj>) returns (r: Outcome<bool>)
      ensures value.None? ==> r == Throw(NullPointer)
      ensures value.Some? ==> r == Ok(HoldsValue(reclaimed, delegate, value.value))
    {
      if value.None? {
        return Throw(NullPointer);
      }
      var v := value.value;
      for i := 0 to |delegate|
        invariant forall j :: 0 <= j < i ==> !(Deref(reclaimed, delegate[j].value).Some? && Equal(v, Deref(reclaimed, delegate[j].value).value))
      {
        var referent := Deref(reclaimed, delegate[i].value);
        if referent.Some? && Equal(v, referent.value) {
          return Ok(true);
        }
      }
      r := Ok(false);
    }

    /** `entrySet`: the live entries, skipping any whose key or value has
        been reclaimed. */
    method EntrySet() returns (r: seq<(JObj, JObj)>)
      ensures r == LiveEntries(reclaimed, delegate)
    {
      r := [];
      var i := |delegate|;
      while i > 0
        invariant 0 <= i <= |delegate|
        invariant r == LiveEntries(reclaimed, delegate[i..])
      {
        i := i - 1;
        assert delegate[i..][1..] == delegate[i + 1..];
        var k := Deref(reclaimed, delegate[i].key);
        var v := Deref(reclaimed, delegate[i].value);
        if k.Some? && v.Some? {
          r := [(k.value, v.value)] + r;
        }
      }
      assert delegate[0..] == delegate;
    }

    /** `referenceKey`: the key itself, or a new soft or weak reference. */
    method ReferenceKey(key: JObj) returns (r: Ref)
      modifies this`nextRef
      ensures keyReferenceType == STRONG ==> r == Strong(key) && nextRef == old(nextRef)
      ensures keyReferenceType != STRONG ==> r == Reclaimable(old(nextRef), key, None) && nextRef == old(nextRef) + 1
    {
      if keyReferenceType == STRONG {
        r := Strong(key);
      } else {
        r := Reclaimable(nextRef, key, None);
        nextRef := nextRef + 1;
      }
    }

    /** `referenceValue`: the value itself, or a new soft or weak reference
        that remembers its key reference. */
    method ReferenceValue(keyRef: Ref, value: JObj) returns (r: Ref)
      modifies this`nextRef
      ensures valueReferenceType == STRONG ==> r == Strong(value) && nextRef == old(nextRef)
      ensures valueReferenceType != STRONG ==> r == Reclaimable(old(nextRef), value, Some(keyRef)) && nextRef == old(nextRef) + 1
    {
      if valueReferenceType == STRONG {
        r := Strong(value);
      } else {
        r := Reclaimable(nextRef, value, Some(keyRef));
        nextRef := nextRef + 1;
      }
    }

    /** `Strategy.execute` on the delegate map: `put`, `replace` or
        `putIfAbsent` of already referenced key and value. A matching entry
        keeps its stored key; the previous value reference is returned. */
    method PutReferences(strategy: PutStrategy, keyRef: Ref, valueRef: Ref) returns (previous: Option<Ref>)
      requires Valid() && KeyShape(keyReferenceType, nextRef, keyRef) && ValueShape(valueReferenceType, nextRef, valueRef)
      modifies this`delegate
      ensures Valid()
      ensures |old(delegate)| <= |delegate| && forall k :: 0 <= k < |old(delegate)| ==> delegate[k].key == old(delegate)[k].key
      ensures var i := FindIndex(reclaimed, ProbeOf(keyRef), old(delegate));
              && (i < |old(delegate)| ==> previous == Some(old(delegate)[i].value))
              && (i == |old(delegate)| ==> previous.None?)
              && (i < |old(delegate)| && strategy != PUT_IF_ABSENT ==>
                    delegate == old(delegate)[i := Entry(old(delegate)[i].key, valueRef)])
              && (i < |old(delegate)| && strategy == PUT_IF_ABSENT ==> delegate == old(delegate))
              && (i == |old(delegate)| && strategy != REPLACE ==> delegate == old(delegate) + [Entry(keyRef, valueRef)])
              && (i == |old(delegate)| && strategy == REPLACE ==> delegate == old(delegate))
    {
      var i := FindIndex(reclaimed, ProbeOf(keyRef), delegate);
      if i < |delegate| {
        previous := Some(delegate[i].value);
        if strategy != PUT_IF_ABSENT {
          delegate := delegate[i := Entry(delegate[i].key, valueRef)];
        }
      } else {
        previous := None;
        if strategy != REPLACE {
          AppendUnique(reclaimed, delegate, Entry(keyRef, valueRef));
          delegate := delegate + [Entry(keyRef, valueRef)];
        }
      }
    }

    /** `execute(strategy, key, value)`: rejects `null`, then
        `ExecuteLive`. */
    method Execute(strategy: PutStrategy, key: Option<JObj>, value: Option<JObj>) returns (r: Outcome<Option<JObj>>)
      requires Valid()
      modifies this`delegate, this`nextRef
      ensures Valid() && reclaimed == old(reclaimed)
      ensures |old(delegate)| <= |delegate| && forall k :: 0 <= k < |old(delegate)| ==> delegate[k].key == old(delegate)[k].key
      ensures key.None? || value.None? ==> r == Throw(NullPointer) && delegate == old(delegate)
      ensures key.Some? && value.Some? ==>
                var i := old(Find(key.value));
                && r == Ok(if i < |old(delegate)| then Deref(reclaimed, old(delegate)[i].value) else None)
                && (!Stores(strategy, i < |old(delegate)|) ==> delegate == old(delegate))
                && (Stores(strategy, i < |old(delegate)|) ==>
                      && (key.value !in reclaimed ==> ContainsKey(key) == Ok(true))
                      && (key.value !in reclaimed && value.value !in reclaimed ==> Get(key) == Ok(value))
                      && |delegate| == |old(delegate)| + (if i < |old(delegate)| then 0 else 1)
                      && forall k :: 0 <= k < |old(delegate)| && k != i ==> delegate[k] == old(delegate)[k])
      ensures key.Some? && value.Some? ==>
                forall other :: !SameKey(keyReferenceType, key.value, other) ==> Get(Some(other)) == old(Get(Some(other)))
    {
      var checked := EnsureNotNull([key, value]);
      if checked.Throw? {
        assert [key, value][0] == key && [key, value][1] == value;
        return Throw(checked.ex);
      }
      assert key.Some? && value.Some? by {
        assert [key, value][0] == key && [key, value][1] == value;
      }
      var previous := ExecuteLive(strategy, key.value, value.value);
      r := Ok(previous);
    }

    /** The strategy step of `execute` for non-null key and value: reference
        both, apply the strategy, dereference what it replaced. */
    method ExecuteLive(strategy: PutStrategy, key: JObj, value: JObj) returns (r: Option<JObj>)
      requires Valid()
      modifies this`delegate, this`nextRef
      ensures Valid() && reclaimed == old(reclaimed)
      ensures |old(delegate)| <= |delegate| && forall k :: 0 <= k < |old(delegate)| ==> delegate[k].key == old(delegate)[k].key
      ensures var i := old(Find(key));
              && r == (if i < |old(delegate)| then Deref(reclaimed, old(delegate)[i].value) else None)
              && (!Stores(strategy, i < |old(delegate)|) ==> delegate == old(delegate))
              && (Stores(strategy, i < |old(delegate)|) ==>
                    && i < |delegate| && (key !in reclaimed ==> Find(key) == i)
                    && (value !in reclaimed ==> Deref(reclaimed, delegate[i].value) == Some(value))
                    && |delegate| == |old(delegate)| + (if i < |old(delegate)| then 0 else 1)
                    && forall k :: 0 <= k < |old(delegate)| && k != i ==> delegate[k] == old(delegate)[k])
      ensures forall other :: !SameKey(keyReferenceType, key, other) ==> InternalGet(other) == old(InternalGet(other))
    {
      var keyRef := ReferenceKey(key);
      var valueRef := ReferenceValue(keyRef, value);
      var previous := PutReferences(strategy, keyRef, valueRef);
      StrategyEffect(reclaimed, strategy, keyReferenceType, key, keyRef, valueRef, old(delegate), delegate);
      r := if previous.Some? then Deref(reclaimed, previous.value) else None;
    }

    /** `put(key, value)`: the PUT strategy. */
    method Put(key: Option<JObj>, value: Option<JObj>) returns (r: Outcome<Option<JObj>>)
      requires Valid()
      modifies this`delegate, this`nextRef
      ensures Valid() && reclaimed == old(reclaimed)
      ensures key.None? || value.None? ==> r == Throw(NullPointer) && delegate == old(delegate)
      ensures |old(delegate)| <= |delegate| && forall k :: 0 <= k < |old(delegate)| ==> delegate[k].key == old(delegate)[k].key
      ensures key.Some? && value.Some? ==> r == old(Get(key))
      ensures key.Some? && value.Some? ==> |delegate| == |old(delegate)| + (if old(Find(key.value)) < |old(delegate)| then 0 else 1)
      ensures key.Some? && value.Some? && key.value !in reclaimed ==> ContainsKey(key) == Ok(true)
      ensures key.Some? && value.Some? && key.value !in reclaimed && value.value !in reclaimed ==> Get(key) == Ok(value)
      ensures key.Some? && value.Some? ==>
                forall other :: !SameKey(keyReferenceType, key.value, other) ==> Get(Some(other)) == old(Get(Some(other)))
    {
      r := Execute(PUT, key, value);
    }

    /** `Held` for the current entries. */
    ghost predicate PutsHeld(pairs: seq<(Option<JObj>, Option<JObj>)>, n: nat)
      requires n <= |pairs|
      reads this
    {
      Held(reclaimed, keyReferenceType, delegate, pairs, n)
    }

    /** One step of `putAll`: `put` of pair `n`, keeping what the earlier
        pairs hold. */
    method PutPair(pairs: seq<(Option<JObj>, Option<JObj>)>, n: nat) returns (r: Outcome<Option<JObj>>)
      requires Valid() && n < |pairs| && PutsHeld(pairs, n)
      requires forall i :: 0 <= i < n ==> pairs[i].0.Some? && pairs[i].1.Some?
      requires forall i :: 0 <= i < n && pairs[i].0.value !in reclaimed ==> ContainsKey(pairs[i].0) == Ok(true)
      modifies this`delegate, this`nextRef
      ensures Valid() && reclaimed == old(reclaimed)
      ensures r.Throw? <==> pairs[n].0.None? || pairs[n].1.None?
      ensures r.Throw? ==> r.ex == NullPointer && delegate == old(delegate)
      ensures r.Ok? ==> PutsHeld(pairs, n + 1)
      ensures r.Ok? ==> forall i :: 0 <= i < n + 1 && pairs[i].0.value !in reclaimed ==> ContainsKey(pairs[i].0) == Ok(true)
      ensures r.Ok? ==> forall other :: !SameKey(keyReferenceType, pairs[n].0.value, other) ==>
                Lookup(reclaimed, keyReferenceType, delegate, other) == old(Lookup(reclaimed, keyReferenceType, delegate, other))
    {
      r := Put(pairs[n].0, pairs[n].1);
      if r.Ok? {
        forall i | 0 <= i < n && pairs[i].0.value !in reclaimed
          ensures ContainsKey(pairs[i].0) == Ok(true)
        {
          assert old(ContainsKey(pairs[i].0)) == Ok(true);
          var k :| 0 <= k < |old(delegate)| && Matches(reclaimed, LookupProbe(keyReferenceType, pairs[i].0.value), old(delegate)[k].key);
          assert delegate[k].key == old(delegate)[k].key;
        }
        forall other | !SameKey(keyReferenceType, pairs[n].0.value, other)
          ensures Lookup(reclaimed, keyReferenceType, delegate, other) == Lookup(reclaimed, keyReferenceType, old(delegate), other)
        {
          assert Get(Some(other)) == old(Get(Some(other)));
        }
        HeldStep(reclaimed, keyReferenceType, old(delegate), delegate, pairs, n);
      }
    }

    /** `putAll`: puts the pairs in order; a `null` stops it with the
        earlier pairs already put. Every key put stays in the map, and the
        last value put for a key is its value. */
    method PutAll(pairs: seq<(Option<JObj>, Option<JObj>)>) returns (r: Outcome<()>)
      requires Valid()
      modifies this`delegate, this`nextRef
      ensures Valid() && reclaimed == old(reclaimed)
      ensures r.Ok? <==> forall i :: 0 <= i < |pairs| ==> pairs[i].0.Some? && pairs[i].1.Some?
      ensures r.Throw? ==> r.ex == NullPointer
      ensures forall i :: 0 <= i < FirstNull(pairs) && pairs[i].0.value !in reclaimed ==> ContainsKey(pairs[i].0) == Ok(true)
      ensures PutsHeld(pairs, FirstNull(pairs))
      ensures forall other :: (forall i :: 0 <= i < FirstNull(pairs) ==> !SameKey(keyReferenceType, pairs[i].0.value, other)) ==>
                Lookup(reclaimed, keyReferenceType, delegate, other) == old(Lookup(reclaimed, keyReferenceType, delegate, other))
    {
      for n := 0 to |pairs|
        invariant Valid() && reclaimed == old(reclaimed)
        invariant forall i :: 0 <= i < n ==> pairs[i].0.Some? && pairs[i].1.Some?
        invariant forall i :: 0 <= i < n && pairs[i].0.value !in reclaimed ==> ContainsKey(pairs[i].0) == Ok(true)
        invariant PutsHeld(pairs, n)
        invariant forall other :: (forall i :: 0 <= i < n ==> !SameKey(keyReferenceType, pairs[i].0.value, other)) ==>
                    Lookup(reclaimed, keyReferenceType, delegate, other) == old(Lookup(reclaimed, keyReferenceType, delegate, other))
      {
        var put := PutPair(pairs, n);
        if put.Throw? {
          return Throw(put.ex);
        }
      }
      r := Ok(());
    }

    /** `size`: the number of delegate entries, stale ones included. */
    function Size(): (n: nat)
      reads this
      ensures n >= |LiveEntries(reclaimed, delegate)|
    {
      |delegate|
    }

    function IsEmpty(): (b: bool)
      reads this
      ensures b <==> Size() == 0
    {
      |delegate| == 0
    }

    /** `clear`. */
    method Clear()
      requires Valid()
      modifies this`delegate
      ensures Valid() && delegate == [] && Size() == 0
    {
      delegate := [];
    }

    /** `keySet`: with strong keys, the delegate's own key set; otherwise
        the keys dereferenced into a `HashSet`, so keys that `equals` each
        other, and all reclaimed keys (`null`), appear once. */
    method KeySet() returns (r: seq<Option<JObj>>)
      requires Valid()
      ensures keyReferenceType == STRONG ==> |r| == |delegate| && forall i :: 0 <= i < |r| ==> r[i] == Some(delegate[i].key.obj)
      ensures Distinct(r)
      ensures forall i :: 0 <= i < |delegate| ==> Contains(r, Deref(reclaimed, delegate[i].key))
      ensures forall x :: x in r ==> exists i :: 0 <= i < |delegate| && x == Deref(reclaimed, delegate[i].key)
    {
      var es, gone := delegate, reclaimed;
      if keyReferenceType == STRONG {
        r := seq(|es|, i requires 0 <= i < |es| => Deref(gone, es[i].key));
        forall a, b | 0 <= a < b < |r|
          ensures !SameElement(r[a], r[b])
        {
          assert !Collide(reclaimed, es[a].key, es[b].key);
        }
        forall i | 0 <= i < |es|
          ensures Contains(r, Deref(reclaimed, es[i].key))
        {
          assert SameElement(r[i], Deref(reclaimed, es[i].key));
        }
      } else {
        var keys := seq(|es|, i requires 0 <= i < |es| => es[i].key);
        r := DereferenceCollection(keys, HashSet);
        assert forall i :: 0 <= i < |es| ==> keys[i] == es[i].key;
      }
    }

    /** `values`: the values dereferenced into a list; a reclaimed soft or
        weak value shows up as `null`. */
    method Values() returns (r: seq<Option<JObj>>)
      ensures |r| == |delegate|
      ensures forall i :: 0 <= i < |r| ==> r[i] == Deref(reclaimed, delegate[i].value)
      ensures forall v :: Some(v) in r ==> HoldsValue(reclaimed, delegate, v)
    {
      var es := delegate;
      r := DereferenceCollection(seq(|es|, i requires 0 <= i < |es| => es[i].value), ArrayList);
    }

    /** `dereferenceCollection`: every reference's referent added, in
        order, to a new collection of the given kind. */
    method DereferenceCollection(refs: seq<Ref>, into: Collection) returns (out: seq<Option<JObj>>)
      ensures into == ArrayList ==> |out| == |refs| && forall i :: 0 <= i < |refs| ==> out[i] == Deref(reclaimed, refs[i])
      ensures into == HashSet ==> Distinct(out)
      ensures into == HashSet ==> forall i :: 0 <= i < |refs| ==> Contains(out, Deref(reclaimed, refs[i]))
      ensures forall x :: x in out ==> exists i :: 0 <= i < |refs| && x == Deref(reclaimed, refs[i])
    {
      out := [];
      for i := 0 to |refs|
        invariant into == ArrayList ==> |out| == i && forall j :: 0 <= j < i ==> out[j] == Deref(reclaimed, refs[j])
        invariant into == HashSet ==> Distinct(out)
        invariant into == HashSet ==> forall j :: 0 <= j < i ==> Contains(out, Deref(reclaimed, refs[j]))
        invariant forall x :: x in out ==> exists j :: 0 <= j < i && x == Deref(reclaimed, refs[j])
      {
        var x := Deref(reclaimed, refs[i]);
        if into == ArrayList || !Contains(out, x) {
          ghost var before := out;
          out := out + [x];
          forall y | Contains(before, y)
            ensures Contains(out, y)
          {
            var j :| 0 <= j < |before| && SameElement(before[j], y);
            assert out[j] == before[j];
          }
          assert SameElement(out[|before|], x);
        }
      }
    }

    /** `remove(key)`: drops the entry a lookup of `key` finds and returns
        its live value. */
    method Remove(key: Option<JObj>) returns (r: Outcome<Option<JObj>>)
      requires Valid()
      modifies this`delegate
      ensures Valid()
      ensures key.None? ==> r == Throw(NullPointer) && delegate == old(delegate)
      ensures key.Some? ==> r == old(Get(key)) && ContainsKey(key) == Ok(false)
      ensures key.Some? ==> var i := old(Find(key.value));
                            i < |old(delegate)| ==> delegate == old(delegate)[..i] + old(delegate)[i + 1..]
      ensures key.Some? && old(Find(key.value)) == |old(delegate)| ==> delegate == old(delegate)
    {
      if key.None? {
        return Throw(NullPointer);
      }
      var i := Find(key.value);
      if i == |delegate| {
        return Ok(None);
      }
      var value := delegate[i].value;
      ghost var before := delegate;
      ghost var lookup := LookupProbe(keyReferenceType, key.value);
      RemoveAt(reclaimed, delegate, i);
      delegate := delegate[..i] + delegate[i + 1..];
      forall k | 0 <= k < |delegate|
        ensures !Matches(reclaimed, lookup, delegate[k].key)
      {
        var at := if k < i then k else k + 1;
        assert delegate[k] == before[at];
      }
      r := Ok(Deref(reclaimed, value));
    }

    /** The collector reclaims `o`: every soft or weak reference to it now
        dereferences to `null`. */
    method Reclaim(o: JObj)
      requires Valid()
      modifies this`reclaimed
      ensures Valid() && reclaimed == old(reclaimed) + {o}
    {
      reclaimed := reclaimed + {o};
    }

    /** `finalizeReferent` of a cleared reference: a key reference removes
        its own entry; a value reference removes its entry only while that
        entry still maps its key to this very reference. */
    method FinalizeReferent(ref: Ref)
      requires Valid() && ref.Reclaimable? && ref.referent in reclaimed
      modifies this`delegate
      ensures Valid()
      ensures |delegate| <= |old(delegate)| <= |delegate| + 1
      ensures ref.keyReference.None? ==>
                var i := FindIndex(reclaimed, Reference(ref), old(delegate));
                && (i < |old(delegate)| ==> old(delegate)[i].key == ref && delegate == old(delegate)[..i] + old(delegate)[i + 1..])
                && (i == |old(delegate)| ==> delegate == old(delegate))
      ensures ref.keyReference.Some? ==>
                var i := FindIndex(reclaimed, ProbeOf(ref.keyReference.value), old(delegate));
                && (i < |old(delegate)| && old(delegate)[i].value == ref ==> delegate == old(delegate)[..i] + old(delegate)[i + 1..])
                && (i == |old(delegate)| || old(delegate)[i].value != ref ==> delegate == old(delegate))
      ensures forall e :: e in old(delegate) && e.key != ref && e.value != ref ==> e in delegate
    {
      var probe := if ref.keyReference.None? then Reference(ref) else ProbeOf(ref.keyReference.value);
      var i := FindIndex(reclaimed, probe, delegate);
      if i < |delegate| && (ref.keyReference.None? || delegate[i].value == ref) {
        RemoveAt(reclaimed, delegate, i);
        delegate := delegate[..i] + delegate[i + 1..];
      }
    }
  }

  /** A strong map finds a key by `equals`, a weak one only by identity:
      after `put(a, v)`, looking up a distinct but equal `b` finds `v` in
      the first and nothing in the second. */
  method KeyEqualityScenario() returns (strong: Outcome<Option<JObj>>, weak: Outcome<Option<JObj>>)
    ensures strong == Ok(Some(JObj(3, 30)))
    ensures weak == Ok(None)
  {
    var a, b, v := JObj(1, 10), JObj(2, 10), JObj(3, 30);
    var strongMap := new ReferenceMap(STRONG, STRONG);
    var _ := strongMap.Put(Some(a), Some(v));
    FindIndexSame(strongMap.reclaimed, Plain(a), Plain(b), strongMap.delegate);
    strong := strongMap.Get(Some(b));
    var weakMap := new ReferenceMap(WEAK, STRONG);
    var _ := weakMap.Put(Some(a), Some(v));
    assert weakMap.ContainsKey(Some(a)) == Ok(true) && |weakMap.delegate| == 1;
    weak := weakMap.Get(Some(b));
  }

  /** The `ReferenceMap` constructor: `null` types throw
      `NullPointerException`, a PHANTOM type `IllegalArgumentException`. */
  method NewReferenceMap(keyType: Option<ReferenceType>, valueType: Option<ReferenceType>)
    returns (r: Outcome<ReferenceMap>)
    ensures keyType.None? || valueType.None? ==> r == Throw(NullPointer)
    ensures keyType.Some? && valueType.Some? && (keyType.value == PHANTOM || valueType.value == PHANTOM) ==>
              r == Throw(IllegalArgument)
    ensures r.Ok? ==> && keyType.Some? && valueType.Some?
                      && fresh(r.value) && r.value.Valid() && r.value.delegate == []
                      && r.value.keyReferenceType == keyType.value && r.value.valueReferenceType == valueType.value
  {
    if keyType.None? || valueType.None? {
      return Throw(NullPointer);
    }
    if keyType.value == PHANTOM || valueType.value == PHANTOM {
      return Throw(IllegalArgument);
    }
    var m := new ReferenceMap(keyType.value, valueType.value);
    r := Ok(m);
  }
}
