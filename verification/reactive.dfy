/**
  The reactive wrapper: `createReactive`'s handler (get, set, ownKeys,
  deleteProperty), the four memoising factories, and the array methods the
  handler replaces. The objects live in a `Heap`, the dependency state in a
  `Store`; a `Runtime` holds both and the four wrapper caches.
*/
module Reactive {
  import opened Values
  import opened Objects
  import opened Effects

  /**
    The change test of the set trap: `oldVal !== newVal && (oldVal === oldVal
    || newVal === newVal)`.
  */
  predicate HasChanged(oldVal: Value, newVal: Value)
    // the change test is plain inequality: NaN over NaN is no change, NaN over a number is one
    ensures HasChanged(oldVal, newVal) <==> oldVal != newVal
  {
    !StrictEquals(oldVal, newVal) && (StrictEquals(oldVal, oldVal) || StrictEquals(newVal, newVal))
  }

  /**
    The trigger type the set trap picks before writing: on an array, SET when
    `Number(p) < target.length` and ADD otherwise (`Number` throws on a
    symbol, and converts a numeric name such as "-1" too); on an object, SET
    when the key is an own property.
  */
  function ChangeKind(isArray: bool, length: Value, hasOwn: bool, k: Key): (r: Completion<TriggerType>)
    ensures r.Throw? <==> isArray && IsSymbol(k)
    ensures r.Throw? ==> r.error == TypeError
    ensures isArray && k.Idx? ==> (r == Normal(Set) <==> ToNumber(length).Finite? && k.index < ToNumber(length).n)
    ensures isArray && k.Name? ==>
      (r == Normal(Set) <==> StringToNumber(k.name).Finite? && ToNumber(length).Finite? &&
                             StringToNumber(k.name).n < ToNumber(length).n)
    ensures isArray && k == Length ==> r == Normal(Add)
    ensures !isArray ==> (r == Normal(Set) <==> hasOwn) && r.Normal?
  {
    if isArray then
      match KeyToNumber(k)
      case Throw(e) => Throw(e)
      case Normal(n) =>
        if n.Finite? && ToNumber(length).Finite? && n.n < ToNumber(length).n then Normal(Set) else Normal(Add)
    else if hasOwn then Normal(Set)
    else Normal(Add)
  }

  /**
    On an array of length 3, a write to "-1" or "01" is a SET (their numbers
    are below the length), while "x" and "5" are ADDs.
  */
  lemma NumericNamesChangeKind()
    ensures ChangeKind(true, Num(3), false, KeyOf("-1")) == Normal(Set)
    ensures ChangeKind(true, Num(3), false, KeyOf("01")) == Normal(Set)
    ensures ChangeKind(true, Num(3), false, KeyOf("x")) == Normal(Add)
    ensures ChangeKind(true, Num(3), false, KeyOf("5")) == Normal(Add)
  {
    NumericNames();
    assert IsNatString("5") && DigitsValue("5") == 5 by {
      assert "5"[..0] == "";
    }
  }

  /** What a write or a delete reports: the trap's boolean and the effects its `trigger` calls hand on. */
  datatype Written = Written(ok: bool, plan: seq<Dispatch>)

  /**
    Each access an instrumented mutator makes on its receiver, in order: a
    read, a write (`Set(O, P, V, true)`), or a delete (`DeletePropertyOrThrow`,
    as `pop`, `shift` and `splice` do).
  */
  datatype Access = Get(key: Key) | Put(key: Key, value: Value) | Remove(key: Key)

  /**
    The instrumented search: the result through the wrapper, and when that
    is `false` the result of the same search on the raw array.
  */
  function SearchResult(throughProxy: Value, onRaw: Value): (r: Value)
    ensures r != throughProxy ==> throughProxy == Bool(false)
    ensures throughProxy == Num(-1) ==> r == Num(-1)
    ensures throughProxy == Bool(false) && onRaw == Bool(true) ==> r == Bool(true)
  {
    if throughProxy == Bool(false) then onRaw else throughProxy
  }

  /** `includes` finds an element when either search finds it. */
  lemma IncludesFindsEither(throughProxy: bool, onRaw: bool)
    ensures SearchResult(Bool(throughProxy), Bool(onRaw)) == Bool(throughProxy || onRaw)
  {
  }

  /** `indexOf` and `lastIndexOf` never retry: a miss through the wrapper stays a miss. */
  lemma IndexSearchKeepsMiss(onRaw: nat)
    ensures SearchResult(Num(-1), Num(onRaw)) == Num(-1)
    ensures SearchResult(Num(-1), Num(onRaw)) != Num(onRaw)
  {
  }

  /** The search with the retry on a miss of any of the three methods: `false` or -1. */
  function IntendedSearchResult(throughProxy: Value, onRaw: Value): (r: Value)
    ensures throughProxy != Bool(false) && throughProxy != Num(-1) ==> r == throughProxy
    ensures throughProxy == Bool(false) || throughProxy == Num(-1) ==> r == onRaw
  {
    if throughProxy == Bool(false) || throughProxy == Num(-1) then onRaw else throughProxy
  }

  /** With the retry on -1, an index found on the raw array is reported. */
  lemma IntendedIndexSearchFinds(throughProxy: int, onRaw: int)
    requires throughProxy == -1 || throughProxy >= 0
    ensures IntendedSearchResult(Num(throughProxy), Num(onRaw)) == Num(if throughProxy >= 0 then throughProxy else onRaw)
    ensures forall b, c :: IntendedSearchResult(Bool(b), Bool(c)) == SearchResult(Bool(b), Bool(c))
  {
  }

  /**
    The set trap's write into the ordinary object `t` of `objects`, giving
    `objects'`: the trigger type is chosen before the write; after a write
    that does not throw, `trigger` runs when `fires` (the receiver's `raw`
    is the target) and the value changed. For a `strict` assignment a
    refused write throws TypeError, after its trigger.
  */
  ghost predicate SetOutcome(objects: seq<Object>, objects': seq<Object>, t: ObjId, k: Key, val: Value,
                             fires: bool, strict: bool, b: Bucket, active: Option<EffectId>,
                             options: map<EffectId, EffectOptions>, r: Completion<Written>)
    requires t < |objects| && objects[t].Plain?
  {
    var o := objects[t];
    var kind := ChangeKind(o.isArray, RawGet(o, Length), RawHasOwn(o, k), k);
    && (kind.Throw? ==> r == Throw(TypeError) && objects' == objects)
    && (kind.Normal? ==>
          match RawSet(o, k, val)
          case Throw(e) => r == Throw(e) && objects' == objects
          case Normal(res) =>
            && objects' == objects[t := res.1]
            && if fires && HasChanged(RawGet(o, k), val) then
                 && (r.Throw? <==> TriggerThrows(b, t, k, Some(kind.value), val, o.isArray, active) || (strict && !res.0))
                 && (r.Throw? ==> r.error == TypeError)
                 && (r.Normal? ==>
                      && r.value.ok == res.0
                      && TriggerPlan(b, t, k, Some(kind.value), val, o.isArray, active, options, r.value.plan))
               else r == if strict && !res.0 then Throw(TypeError) else Normal(Written(res.0, [])))
  }

  /** A strict-mode assignment `x[k] = v`: a refused write throws TypeError; the assignment succeeds otherwise. */
  function Strict(w: Completion<Written>): (r: Completion<Written>)
    ensures r.Normal? <==> w.Normal? && w.value.ok
    ensures r.Normal? ==> r.value == w.value
    ensures r.Throw? ==> r.error == (if w.Throw? then w.error else TypeError)
  {
    if w.Throw? then w
    else if !w.value.ok then Throw(TypeError)
    else Normal(Written(true, w.value.plan))
  }

  /** A write made strict keeps its outcome, with a refusal now throwing. */
  lemma StrictOutcome(objects: seq<Object>, objects': seq<Object>, t: ObjId, k: Key, val: Value, fires: bool,
                      b: Bucket, active: Option<EffectId>, options: map<EffectId, EffectOptions>, w: Completion<Written>)
    requires t < |objects| && objects[t].Plain?
    requires SetOutcome(objects, objects', t, k, val, fires, false, b, active, options, w)
    ensures SetOutcome(objects, objects', t, k, val, fires, true, b, active, options, Strict(w))
  {
  }

  /** The engine's own keys are distinct names, and none is an instrumented array method. */
  lemma EngineKeys()
    ensures ValueKey != RawKey && IsRefKey != RawKey && ValueKey != IsRefKey
    ensures !Instrumented(ValueKey) && !Instrumented(IsRefKey)
  {
  }

  /** Every entry of `cache` maps an object to a wrapper of it with these flags, made after it. */
  ghost predicate Wraps(objects: seq<Object>, cache: map<ObjId, ObjId>, shallow: bool, readonly: bool) {
    forall x :: x in cache ==>
      x < cache[x] < |objects| && objects[cache[x]] == ReactiveProxy(x, shallow, readonly)
  }

  /** A cache stays right while objects are only added and keep their shape. */
  lemma WrapsExtend(a: seq<Object>, b: seq<Object>, cache: map<ObjId, ObjId>, shallow: bool, readonly: bool)
    requires Wraps(a, cache, shallow, readonly) && Extends(a, b)
    ensures Wraps(b, cache, shallow, readonly)
  {
    forall x | x in cache ensures b[cache[x]] == ReactiveProxy(x, shallow, readonly) {
      assert SameShape(a[cache[x]], b[cache[x]]);
    }
  }

  /** A cache extended with a wrapper just added to the heap stays right; the object had no entry. */
  lemma WrapsAdd(objects: seq<Object>, cache: map<ObjId, ObjId>, shallow: bool, readonly: bool, obj: ObjId)
    requires Wraps(objects, cache, shallow, readonly) && obj < |objects|
    ensures Wraps(objects + [ReactiveProxy(obj, shallow, readonly)], cache[obj := |objects|], shallow, readonly)
    ensures |objects| !in cache
  {
  }

  /** `a`'s entries are all in `b`. */
  ghost predicate SubMap(a: map<ObjId, ObjId>, b: map<ObjId, ObjId>) {
    forall x :: x in a ==> x in b && b[x] == a[x]
  }

  /** A cache that is kept, or gets an entry for an object it had none for, keeps its entries. */
  lemma SubMapAdd(a: map<ObjId, ObjId>, b: map<ObjId, ObjId>, obj: ObjId, p: ObjId)
    requires b == a || (obj !in a && b == a[obj := p])
    ensures SubMap(a, b)
  {
  }

  class Runtime {
    const heap: Heap
    const store: Store
    /** `reactiveMap`, `shallowReactiveMap`, `readonlyMap`, `shallowReadonlyMap`: raw object to wrapper. */
    var reactiveMap: map<ObjId, ObjId>
    var shallowReactiveMap: map<ObjId, ObjId>
    var readonlyMap: map<ObjId, ObjId>
    var shallowReadonlyMap: map<ObjId, ObjId>

    /** The cache of the factory with these flags. */
    function Cache(shallow: bool, readonly: bool): map<ObjId, ObjId>
      reads this
    {
      if shallow then (if readonly then shallowReadonlyMap else shallowReactiveMap)
      else (if readonly then readonlyMap else reactiveMap)
    }

    /** Every cached wrapper is a wrapper, with the cache's flags, of the object it is cached under. */
    ghost predicate CachesHold()
      reads this, heap
    {
      && Wraps(heap.objects, reactiveMap, false, false)
      && Wraps(heap.objects, shallowReactiveMap, true, false)
      && Wraps(heap.objects, readonlyMap, false, true)
      && Wraps(heap.objects, shallowReadonlyMap, true, true)
    }

    ghost predicate Valid()
      reads this, heap, store
    {
      heap.Valid() && store.Valid() && CachesHold()
    }

    /**
      What every operation keeps: objects are only added and keep their
      shape, cache entries stay, and the effect stack, the tracking flag and
      the registered effects are as before.
    */
    twostate predicate Evolved()
      reads this, heap, store
    {
      && Extends(old(heap.objects), heap.objects)
      && SubMap(old(reactiveMap), reactiveMap)
      && SubMap(old(shallowReactiveMap), shallowReactiveMap)
      && SubMap(old(readonlyMap), readonlyMap)
      && SubMap(old(shallowReadonlyMap), shallowReadonlyMap)
      && store.stack == old(store.stack) && store.active == old(store.active)
      && store.shouldTrack == old(store.shouldTrack)
      && store.options == old(store.options) && store.nextEffect == old(store.nextEffect)
    }

    /** Without an active effect or with tracking off, nothing is tracked. */
    twostate predicate Quiet()
      reads this, heap, store
    {
      !(old(store.shouldTrack) && old(store.active).Some?) ==>
        store.bucket == old(store.bucket) && store.deps == old(store.deps)
    }

    /** The four caches are as before. */
    twostate predicate CachesKept()
      reads this
    {
      && reactiveMap == old(reactiveMap) && shallowReactiveMap == old(shallowReactiveMap)
      && readonlyMap == old(readonlyMap) && shallowReadonlyMap == old(shallowReadonlyMap)
    }

    /** Objects, caches and dependencies are all as before. */
    twostate predicate Unchanged()
      reads this, heap, store
    {
      && heap.objects == old(heap.objects) && CachesKept()
      && store.bucket == old(store.bucket) && store.deps == old(store.deps)
    }

    constructor (h: Heap, s: Store)
      requires h.Valid() && s.Valid()
      ensures Valid() && heap == h && store == s
      ensures reactiveMap == map[] && shallowReactiveMap == map[]
      ensures readonlyMap == map[] && shallowReadonlyMap == map[]
    {
      heap, store := h, s;
      reactiveMap, shallowReactiveMap, readonlyMap, shallowReadonlyMap := map[], map[], map[], map[];
    }

    /** An ordinary object changed in place. */
    method PutPlain(id: ObjId, o: Object)
      requires Valid() && id < |heap.objects| && heap.objects[id].Plain?
      requires SameShape(heap.objects[id], o) && WellFormed(o, id, |heap.objects|)
      modifies heap
      ensures Valid() && Evolved()
      ensures heap.objects == old(heap.objects)[id := o]
    {
      ghost var before := heap.objects;
      heap.Put(id, o);
      WrapsExtend(before, heap.objects, reactiveMap, false, false);
      WrapsExtend(before, heap.objects, shallowReactiveMap, true, false);
      WrapsExtend(before, heap.objects, readonlyMap, false, true);
      WrapsExtend(before, heap.objects, shallowReadonlyMap, true, true);
    }

    /** A new object whose one property is served by a class of the model. */
    method NewHost() returns (id: ObjId)
      requires Valid()
      modifies heap
      ensures Valid() && Evolved()
      ensures id == |old(heap.objects)| && heap.objects == old(heap.objects) + [Host]
    {
      ghost var before := heap.objects;
      id := heap.Alloc(Host);
      WrapsExtend(before, heap.objects, reactiveMap, false, false);
      WrapsExtend(before, heap.objects, shallowReactiveMap, true, false);
      WrapsExtend(before, heap.objects, readonlyMap, false, true);
      WrapsExtend(before, heap.objects, shallowReadonlyMap, true, true);
    }

    /** `Array.isArray(v)`: true for arrays and wrappers of arrays. */
    function IsArray(v: ObjId): bool
      requires heap.Valid() && v < |heap.objects|
      reads heap
    {
      match heap.objects[v]
      case Plain(_, _, isArray) => isArray
      case ReactiveProxy(t, _, _) => assert WellFormed(heap.objects[v], v, |heap.objects|); IsArray(t)
      case Carrier(_, _) => false
      case Host => false
    }

    /** `Object.prototype.hasOwnProperty.call(v, k)`; a wrapper has no trap for it and answers for its target. */
    function HasOwn(v: ObjId, k: Key): bool
      requires heap.Valid() && v < |heap.objects|
      reads heap
    {
      match heap.objects[v]
      case Plain(_, _, _) => RawHasOwn(heap.objects[v], k)
      case ReactiveProxy(t, _, _) => assert WellFormed(heap.objects[v], v, |heap.objects|); HasOwn(t, k)
      case Carrier(_, _) => k == ValueKey || k == IsRefKey
      case Host => k == ValueKey
    }

    /** `k` is an enumerable own property of `v` (a carrier's `__v_isRef` is not). */
    function Enumerable(v: ObjId, k: Key): bool
      requires heap.Valid() && v < |heap.objects|
      reads heap
    {
      match heap.objects[v]
      case Plain(props, frozen, isArray) => k in props && k !in frozen && !(isArray && k == Length)
      case ReactiveProxy(t, _, _) => assert WellFormed(heap.objects[v], v, |heap.objects|); Enumerable(t, k)
      case Carrier(_, _) => k == ValueKey
      case Host => k == ValueKey
    }

    /** `receiver.raw`: a wrapper answers with its target without tracking. */
    function ReceiverRaw(v: ObjId): Value
      requires v < |heap.objects|
      reads heap
    {
      match heap.objects[v]
      case Plain(_, _, _) => RawGet(heap.objects[v], RawKey)
      case ReactiveProxy(t, _, _) => Obj(t)
      case Carrier(_, _) => Undefined
      case Host => Undefined
    }

    /**
      `createReactive(obj, shallow, readonly)` behind its factory's cache: the
      cached wrapper when there is one, otherwise a new wrapper, cached.
    */
    method Wrap(obj: ObjId, shallow: bool, readonly: bool) returns (p: ObjId)
      requires Valid() && obj < |heap.objects|
      modifies this, heap
      ensures Valid() && Evolved()
      ensures p < |heap.objects| && heap.objects[p] == ReactiveProxy(obj, shallow, readonly)
      ensures reactiveMap == if !shallow && !readonly then old(reactiveMap)[obj := p] else old(reactiveMap)
      ensures shallowReactiveMap ==
        if shallow && !readonly then old(shallowReactiveMap)[obj := p] else old(shallowReactiveMap)
      ensures readonlyMap == if !shallow && readonly then old(readonlyMap)[obj := p] else old(readonlyMap)
      ensures shallowReadonlyMap ==
        if shallow && readonly then old(shallowReadonlyMap)[obj := p] else old(shallowReadonlyMap)
      ensures obj in old(Cache(shallow, readonly)) ==>
        p == old(Cache(shallow, readonly))[obj] && heap.objects == old(heap.objects)
      ensures obj !in old(Cache(shallow, readonly)) ==>
        p == |old(heap.objects)| && heap.objects == old(heap.objects) + [ReactiveProxy(obj, shallow, readonly)]
    {
      var cache := Cache(shallow, readonly);
      if obj in cache {
        return cache[obj];
      }
      p := NewWrapper(obj, shallow, readonly);
    }

    /** `createReactive(obj, shallow, readonly)` and the cache entry for it. */
    method NewWrapper(obj: ObjId, shallow: bool, readonly: bool) returns (p: ObjId)
      requires Valid() && obj < |heap.objects| && obj !in Cache(shallow, readonly)
      modifies this, heap
      ensures Valid() && Evolved()
      ensures p == |old(heap.objects)| && heap.objects == old(heap.objects) + [ReactiveProxy(obj, shallow, readonly)]
      ensures reactiveMap == if !shallow && !readonly then old(reactiveMap)[obj := p] else old(reactiveMap)
      ensures shallowReactiveMap ==
        if shallow && !readonly then old(shallowReactiveMap)[obj := p] else old(shallowReactiveMap)
      ensures readonlyMap == if !shallow && readonly then old(readonlyMap)[obj := p] else old(readonlyMap)
      ensures shallowReadonlyMap ==
        if shallow && readonly then old(shallowReadonlyMap)[obj := p] else old(shallowReadonlyMap)
    {
      ghost var before := heap.objects;
      p := heap.Alloc(ReactiveProxy(obj, shallow, readonly));
      WrapsExtend(before, heap.objects, reactiveMap, false, false);
      WrapsExtend(before, heap.objects, shallowReactiveMap, true, false);
      WrapsExtend(before, heap.objects, readonlyMap, false, true);
      WrapsExtend(before, heap.objects, shallowReadonlyMap, true, true);
      WrapsAdd(before, Cache(shallow, readonly), shallow, readonly, obj);
      Remember(obj, p, shallow, readonly);
      SubMapAdd(old(reactiveMap), reactiveMap, obj, p);
      SubMapAdd(old(shallowReactiveMap), shallowReactiveMap, obj, p);
      SubMapAdd(old(readonlyMap), readonlyMap, obj, p);
      SubMapAdd(old(shallowReadonlyMap), shallowReadonlyMap, obj, p);
    }

    /** `set(obj, proxy)` on the cache of the factory with these flags. */
    method Remember(obj: ObjId, p: ObjId, shallow: bool, readonly: bool)
      modifies this
      ensures reactiveMap == if !shallow && !readonly then old(reactiveMap)[obj := p] else old(reactiveMap)
      ensures shallowReactiveMap ==
        if shallow && !readonly then old(shallowReactiveMap)[obj := p] else old(shallowReactiveMap)
      ensures readonlyMap == if !shallow && readonly then old(readonlyMap)[obj := p] else old(readonlyMap)
      ensures shallowReadonlyMap ==
        if shallow && readonly then old(shallowReadonlyMap)[obj := p] else old(shallowReadonlyMap)
    {
      if shallow && readonly {
        shallowReadonlyMap := shallowReadonlyMap[obj := p];
      } else if shallow {
        shallowReactiveMap := shallowReactiveMap[obj := p];
      } else if readonly {
        readonlyMap := readonlyMap[obj := p];
      } else {
        reactiveMap := reactiveMap[obj := p];
      }
    }

    /** `reactive(obj)`: one deep, writable wrapper per object. */
    method Reactive(obj: ObjId) returns (p: ObjId)
      requires Valid() && obj < |heap.objects|
      modifies this, heap
      ensures Valid() && Evolved()
      ensures p < |heap.objects| && heap.objects[p] == ReactiveProxy(obj, false, false) && reactiveMap == old(reactiveMap)[obj := p]
      ensures obj in old(reactiveMap) ==> p == old(reactiveMap)[obj] && heap.objects == old(heap.objects)
      ensures obj !in old(reactiveMap) ==>
        p == |old(heap.objects)| && heap.objects == old(heap.objects) + [ReactiveProxy(obj, false, false)]
      ensures shallowReactiveMap == old(shallowReactiveMap) && readonlyMap == old(readonlyMap)
      ensures shallowReadonlyMap == old(shallowReadonlyMap)
    {
      p := Wrap(obj, false, false);
    }

    /** `shallowReactive(obj)` */
    method ShallowReactive(obj: ObjId) returns (p: ObjId)
      requires Valid() && obj < |heap.objects|
      modifies this, heap
      ensures Valid() && Evolved()
      ensures p < |heap.objects| && heap.objects[p] == ReactiveProxy(obj, true, false) && shallowReactiveMap == old(shallowReactiveMap)[obj := p]
      ensures obj in old(shallowReactiveMap) ==> p == old(shallowReactiveMap)[obj] && heap.objects == old(heap.objects)
      ensures obj !in old(shallowReactiveMap) ==>
        p == |old(heap.objects)| && heap.objects == old(heap.objects) + [ReactiveProxy(obj, true, false)]
      ensures reactiveMap == old(reactiveMap) && readonlyMap == old(readonlyMap)
      ensures shallowReadonlyMap == old(shallowReadonlyMap)
    {
      p := Wrap(obj, true, false);
    }

    /** `readonly(obj)` */
    method Readonly(obj: ObjId) returns (p: ObjId)
      requires Valid() && obj < |heap.objects|
      modifies this, heap
      ensures Valid() && Evolved()
      ensures p < |heap.objects| && heap.objects[p] == ReactiveProxy(obj, false, true) && readonlyMap == old(readonlyMap)[obj := p]
      ensures obj in old(readonlyMap) ==> p == old(readonlyMap)[obj] && heap.objects == old(heap.objects)
      ensures obj !in old(readonlyMap) ==>
        p == |old(heap.objects)| && heap.objects == old(heap.objects) + [ReactiveProxy(obj, false, true)]
      ensures reactiveMap == old(reactiveMap) && shallowReactiveMap == old(shallowReactiveMap)
      ensures shallowReadonlyMap == old(shallowReadonlyMap)
    {
      p := Wrap(obj, false, true);
    }

    /** `shallowReadonly(obj)` */
    method ShallowReadonly(obj: ObjId) returns (p: ObjId)
      requires Valid() && obj < |heap.objects|
      modifies this, heap
      ensures Valid() && Evolved()
      ensures p < |heap.objects| && heap.objects[p] == ReactiveProxy(obj, true, true) && shallowReadonlyMap == old(shallowReadonlyMap)[obj := p]
      ensures obj in old(shallowReadonlyMap) ==> p == old(shallowReadonlyMap)[obj] && heap.objects == old(heap.objects)
      ensures obj !in old(shallowReadonlyMap) ==>
        p == |old(heap.objects)| && heap.objects == old(heap.objects) + [ReactiveProxy(obj, true, true)]
      ensures reactiveMap == old(reactiveMap) && shallowReactiveMap == old(shallowReactiveMap)
      ensures readonlyMap == old(readonlyMap)
    {
      p := Wrap(obj, true, true);
    }

    /**
      `v[k]` with `v` as receiver: an ordinary object answers from its own
      properties, a wrapper runs its get trap, a carrier reads its source.
    */
    method GetProp(v: ObjId, k: Key) returns (r: Value)
      requires Valid() && v < |heap.objects|
      modifies this, heap, store
      decreases v, 1
      ensures Valid() && Evolved() && Quiet()
      ensures ValueBelow(r, |heap.objects|)
      ensures old(heap.objects[v]).Plain? ==> r == RawGet(old(heap.objects[v]), k) && Unchanged()
      ensures
        var w := old(heap.objects[v]);
        w.ReactiveProxy? && k != RawKey && old(heap.objects[w.target]).Plain? &&
        !(old(heap.objects[w.target]).isArray && Instrumented(k)) ==>
          ReadThrough(w.target, k, w.shallow, w.readonly, r)
      ensures
        var w := old(heap.objects[v]);
        w.Carrier? && k == ValueKey && old(heap.objects[w.source]).Plain? ==>
          r == RawGet(old(heap.objects[w.source]), w.key) && Unchanged()
      ensures
        var w := old(heap.objects[v]);
        w.Carrier? && k == ValueKey && old(heap.objects[w.source]).ReactiveProxy? ==>
          var s := old(heap.objects[w.source]);
          var o := old(heap.objects[s.target]);
          o.Plain? && w.key != RawKey && !(o.isArray && Instrumented(w.key)) ==>
            ReadThrough(s.target, w.key, s.shallow, s.readonly, r)
      ensures old(heap.objects[v]).Carrier? && k == IsRefKey ==> r == Bool(true) && Unchanged()
    {
      assert WellFormed(heap.objects[v], v, |heap.objects|);
      match heap.objects[v]
      case Plain(_, _, _) =>
        r := RawGet(heap.objects[v], k);
      case ReactiveProxy(_, _, _) =>
        r := ReactiveGet(v, k);
      case Carrier(source, key) =>
        if k == ValueKey {
          r := GetProp(source, key);
        } else if k == IsRefKey {
          r := Bool(true);
        } else {
          r := Undefined;
        }
      case Host =>
        // The `value` getter is served by ComputedValues.Computed.Value; a
        // generic read here does not reach it.
        r := Undefined;
    }

    /**
      The get trap: `raw` gives the target; an instrumented array method
      gives the replacement; otherwise the read is tracked (not by a
      readonly wrapper, not for a symbol), and an object result of a deep
      wrapper comes back wrapped, readonly from a readonly wrapper.
    */
    method ReactiveGet(p: ObjId, k: Key) returns (r: Value)
      requires Valid() && p < |heap.objects| && heap.objects[p].ReactiveProxy?
      modifies this, heap, store
      decreases p, 0
      ensures Valid() && Evolved() && Quiet()
      ensures ValueBelow(r, |heap.objects|)
      ensures k == RawKey ==> r == Obj(old(heap.objects[p]).target) && Unchanged()
      ensures k != RawKey && old(IsArray(heap.objects[p].target)) && Instrumented(k) ==>
        r == Builtin(k.name) && Unchanged()
      ensures
        var w := old(heap.objects[p]);
        var o := old(heap.objects[w.target]);
        o.Plain? && k != RawKey && !(o.isArray && Instrumented(k)) ==>
          ReadThrough(w.target, k, w.shallow, w.readonly, r)
    {
      assert WellFormed(heap.objects[p], p, |heap.objects|);
      var t, shallow, readonly := heap.objects[p].target, heap.objects[p].shallow, heap.objects[p].readonly;
      if k == RawKey {
        return Obj(t);
      }
      if IsArray(t) && Instrumented(k) {
        return Builtin(k.name);
      }
      r := TrackedGet(t, k, shallow, readonly);
    }

    /**
      The get trap's read of an ordinary target `t`: tracked unless readonly
      or a symbol; the raw value, or for a deep wrapper an object value
      wrapped by `reactive` or `readonly`.
    */
    twostate predicate ReadThrough(t: ObjId, k: Key, shallow: bool, readonly: bool, r: Value)
      requires old(t < |heap.objects| && heap.objects[t].Plain?)
      reads this, heap, store
    {
      && (if !readonly && !IsSymbol(k) then store.Tracked(t, k)
          else store.bucket == old(store.bucket) && store.deps == old(store.deps))
      && ValueRead(t, k, shallow, readonly, r)
    }

    /**
      The value the get trap returns for an ordinary target `t`: the raw
      value, or for a deep wrapper an object value wrapped by `reactive` or
      `readonly`.
    */
    twostate predicate ValueRead(t: ObjId, k: Key, shallow: bool, readonly: bool, r: Value)
      requires old(t < |heap.objects| && heap.objects[t].Plain?)
      reads this, heap
    {
      var o := old(heap.objects[t]);
      && (shallow || !RawGet(o, k).Obj? ==>
            r == RawGet(o, k) && heap.objects == old(heap.objects) && CachesKept())
      && (!shallow && RawGet(o, k).Obj? ==>
            && r.Obj? && r.id < |heap.objects|
            && heap.objects[r.id] == ReactiveProxy(RawGet(o, k).id, false, readonly)
            && Cache(false, readonly) == old(Cache(false, readonly))[RawGet(o, k).id := r.id])
    }

    /** The get trap past `raw` and the instrumented methods. */
    method TrackedGet(t: ObjId, k: Key, shallow: bool, readonly: bool) returns (r: Value)
      requires Valid() && t < |heap.objects|
      modifies this, heap, store
      decreases t, 3
      ensures Valid() && Evolved() && Quiet()
      ensures ValueBelow(r, |heap.objects|)
      ensures old(heap.objects[t]).Plain? ==> ReadThrough(t, k, shallow, readonly, r)
    {
      if !readonly && !IsSymbol(k) {
        store.Track(t, k);
      }
      r := ReadAndWrap(t, k, shallow, readonly);
    }

    /** `Reflect.get(target, p, receiver)`, then the wrap of an object result by a deep wrapper. */
    method ReadAndWrap(t: ObjId, k: Key, shallow: bool, readonly: bool) returns (r: Value)
      requires Valid() && t < |heap.objects|
      modifies this, heap, store
      decreases t, 2
      ensures Valid() && Evolved() && Quiet()
      ensures ValueBelow(r, |heap.objects|)
      ensures old(heap.objects[t]).Plain? ==>
        ValueRead(t, k, shallow, readonly, r) && store.bucket == old(store.bucket) && store.deps == old(store.deps)
    {
      var res := GetProp(t, k);
      if shallow || !res.Obj? {
        return res;
      }
      var w := Wrap(res.id, false, readonly);
      r := Obj(w);
    }

    /**
      `Reflect.set(v, k, val, receiver)`, with `receiverRaw` the receiver's
      `raw`: an ordinary object takes the write, a wrapper runs its set trap,
      a carrier's `value` setter assigns to its source (a refused assignment
      throws TypeError, as in strict code).
    */
    method SetProp(v: ObjId, k: Key, val: Value, receiverRaw: Value) returns (r: Completion<Written>)
      requires Valid() && v < |heap.objects| && ValueBelow(val, |heap.objects|)
      modifies this, heap, store
      decreases v, 1
      ensures Valid() && Evolved() && Quiet()
      ensures old(heap.objects[v]).Plain? ==> RawWritten(v, k, val, r)
      ensures
        var w := old(heap.objects[v]);
        w.ReactiveProxy? && !w.readonly && old(heap.objects[w.target]).Plain? ==>
          WriteThrough(w.target, k, val, receiverRaw, r)
      ensures old(heap.objects[v]).ReactiveProxy? && old(heap.objects[v]).readonly ==>
        r == Normal(Written(true, [])) && Unchanged()
      ensures
        var w := old(heap.objects[v]);
        w.Carrier? && k == ValueKey && old(heap.objects[w.source]).Plain? ==>
          && CachesKept() && store.bucket == old(store.bucket) && store.deps == old(store.deps)
          && match RawSet(old(heap.objects[w.source]), w.key, val)
             case Throw(e) => r == Throw(e) && heap.objects == old(heap.objects)
             case Normal(res) =>
               && heap.objects == old(heap.objects)[w.source := res.1]
               && r == if res.0 then Normal(Written(true, [])) else Throw(TypeError)
      ensures
        var w := old(heap.objects[v]);
        w.Carrier? && k == ValueKey && old(heap.objects[w.source]).ReactiveProxy? ==>
          var s := old(heap.objects[w.source]);
          && (s.readonly ==> r == Normal(Written(true, [])) && Unchanged())
          && (!s.readonly && old(heap.objects[s.target]).Plain? ==>
                && CachesKept() && store.bucket == old(store.bucket) && store.deps == old(store.deps)
                && SetOutcome(old(heap.objects), heap.objects, s.target, w.key, val, true, true,
                              old(store.bucket), old(store.active), old(store.options), r))
    {
      assert WellFormed(heap.objects[v], v, |heap.objects|);
      match heap.objects[v]
      case Plain(_, _, _) =>
        var o := heap.objects[v];
        var res := RawSet(o, k, val);
        if res.Throw? {
          return Throw(res.error);
        }
        RawSetWellFormed(o, k, val, v, |heap.objects|);
        PutPlain(v, res.value.1);
        r := Normal(Written(res.value.0, []));
      case ReactiveProxy(_, _, _) =>
        r := ReactiveSet(v, k, val, receiverRaw);
      case Carrier(source, key) =>
        if k == ValueKey {
          ghost var before := heap.objects;
          var w := SetProp(source, key, val, ReceiverRaw(source));
          if before[source].ReactiveProxy? && !before[source].readonly && before[before[source].target].Plain? {
            StrictOutcome(before, heap.objects, before[source].target, key, val, true,
                          old(store.bucket), old(store.active), old(store.options), w);
          }
          r := Strict(w);
        } else {
          r := Normal(Written(false, []));
        }
      case Host =>
        r := Normal(Written(false, []));
    }

    /** The write of `val` under `k` into the ordinary object `v`, and nothing else. */
    twostate predicate RawWritten(v: ObjId, k: Key, val: Value, new r: Completion<Written>)
      requires old(v < |heap.objects| && heap.objects[v].Plain?)
      reads this, heap, store
    {
      var o := old(heap.objects[v]);
      && CachesKept() && store.bucket == old(store.bucket) && store.deps == old(store.deps)
      && match RawSet(o, k, val)
         case Throw(e) => r == Throw(e) && heap.objects == old(heap.objects)
         case Normal(res) => r == Normal(Written(res.0, [])) && heap.objects == old(heap.objects)[v := res.1]
    }

    /** The set trap: a readonly wrapper refuses silently (and reports success). */
    method ReactiveSet(p: ObjId, k: Key, val: Value, receiverRaw: Value) returns (r: Completion<Written>)
      requires Valid() && p < |heap.objects| && heap.objects[p].ReactiveProxy?
      requires ValueBelow(val, |heap.objects|)
      modifies this, heap, store
      decreases p, 0
      ensures Valid() && Evolved() && Quiet()
      ensures old(heap.objects[p]).readonly ==> r == Normal(Written(true, [])) && Unchanged()
      ensures
        var w := old(heap.objects[p]);
        !w.readonly && old(heap.objects[w.target]).Plain? ==> WriteThrough(w.target, k, val, receiverRaw, r)
    {
      assert WellFormed(heap.objects[p], p, |heap.objects|);
      if heap.objects[p].readonly {
        return Normal(Written(true, []));
      }
      r := TriggeredSet(heap.objects[p].target, k, val, receiverRaw);
    }

    /**
      The set trap's write into an ordinary target `t`: the trigger type is
      chosen before the write; after a write that does not throw, `trigger`
      runs when the receiver's `raw` is the target and the value changed.
    */
    twostate predicate WriteThrough(t: ObjId, k: Key, val: Value, receiverRaw: Value, new r: Completion<Written>)
      requires old(t < |heap.objects| && heap.objects[t].Plain?)
      reads this, heap, store
    {
      && CachesKept() && store.bucket == old(store.bucket) && store.deps == old(store.deps)
      && SetOutcome(old(heap.objects), heap.objects, t, k, val, receiverRaw == Obj(t), false,
                    old(store.bucket), old(store.active), old(store.options), r)
    }

    /** The set trap past the readonly check. */
    method TriggeredSet(t: ObjId, k: Key, val: Value, receiverRaw: Value) returns (r: Completion<Written>)
      requires Valid() && t < |heap.objects| && ValueBelow(val, |heap.objects|)
      modifies this, heap, store
      decreases t, 3
      ensures Valid() && Evolved() && Quiet()
      ensures old(heap.objects[t]).Plain? ==> WriteThrough(t, k, val, receiverRaw, r)
    {
      var oldVal, kind := ReadBeforeWrite(t, k);
      r := WriteAndTrigger(t, k, val, receiverRaw, oldVal, kind);
    }

    /** The set trap once `target[p]` and the trigger type are read: write, then trigger. */
    method WriteAndTrigger(t: ObjId, k: Key, val: Value, receiverRaw: Value, oldVal: Value, kind: Completion<TriggerType>)
      returns (r: Completion<Written>)
      requires Valid() && t < |heap.objects| && ValueBelow(val, |heap.objects|)
      requires
        var o := heap.objects[t];
        o.Plain? ==> oldVal == RawGet(o, k) && kind == ChangeKind(o.isArray, RawGet(o, Length), RawHasOwn(o, k), k)
      modifies this, heap, store
      decreases t, 2
      ensures Valid() && Evolved() && Quiet()
      ensures old(heap.objects[t]).Plain? ==> WriteThrough(t, k, val, receiverRaw, r)
    {
      if kind.Throw? {
        return Throw(kind.error);
      }
      var res := SetProp(t, k, val, receiverRaw);
      if res.Throw? {
        return res;
      }
      r := AfterWrite(t, k, kind.value, val, oldVal, receiverRaw, res.value);
    }

    /**
      The end of the set trap: `trigger(target, p, type, newVal)` when the
      receiver's `raw` is the target and the value changed, its effects
      after those of the write itself.
    */
    method AfterWrite(t: ObjId, k: Key, kind: TriggerType, val: Value, oldVal: Value, receiverRaw: Value,
                      res: Written) returns (r: Completion<Written>)
      requires Valid() && t < |heap.objects|
      ensures
        var fires := receiverRaw == Obj(t) && HasChanged(oldVal, val);
        && (!fires ==> r == Normal(res))
        && (fires ==>
              && (r.Throw? <==> TriggerThrows(store.bucket, t, k, Some(kind), val, IsArray(t), store.active))
              && (r.Throw? ==> r.error == TypeError)
              && (r.Normal? ==>
                    && r.value.ok == res.ok && |res.plan| <= |r.value.plan| && r.value.plan[..|res.plan|] == res.plan
                    && TriggerPlan(store.bucket, t, k, Some(kind), val, IsArray(t), store.active, store.options,
                                   r.value.plan[|res.plan|..])))
    {
      if receiverRaw == Obj(t) && HasChanged(oldVal, val) {
        var plan := store.Trigger(t, k, Some(kind), val, IsArray(t));
        if plan.Throw? {
          return Throw(plan.error);
        }
        r := Normal(Written(res.ok, res.plan + plan.value));
        assert r.value.plan[|res.plan|..] == plan.value;
      } else {
        r := Normal(res);
      }
    }

    /**
      What the set trap reads before writing: `target[p]`, and the trigger
      type (which reads `target.length` of an array, after `Number(p)`).
    */
    method ReadBeforeWrite(t: ObjId, k: Key) returns (oldVal: Value, kind: Completion<TriggerType>)
      requires Valid() && t < |heap.objects|
      modifies this, heap, store
      decreases t, 2
      ensures Valid() && Evolved() && Quiet()
      ensures
        var o := old(heap.objects[t]);
        o.Plain? ==>
          && oldVal == RawGet(o, k) && Unchanged()
          && kind == ChangeKind(o.isArray, RawGet(o, Length), RawHasOwn(o, k), k)
    {
      oldVal := GetProp(t, k);
      var isArray := IsArray(t);
      var length := Undefined;
      if isArray && !IsSymbol(k) {
        length := GetProp(t, Length);
      }
      kind := ChangeKind(isArray, length, HasOwn(t, k), k);
    }

    /** `Reflect.ownKeys(v)`, as a set: a wrapper runs its ownKeys trap. */
    method OwnKeysOf(v: ObjId) returns (keys: set<Key>)
      requires Valid() && v < |heap.objects|
      modifies store
      decreases v, 1
      ensures Valid() && Evolved() && Quiet()
      ensures old(heap.objects[v]).Plain? ==>
        keys == old(heap.objects[v]).props.Keys && store.bucket == old(store.bucket) && store.deps == old(store.deps)
      ensures
        var w := old(heap.objects[v]);
        var o := if w.ReactiveProxy? then old(heap.objects[w.target]) else w;
        w.ReactiveProxy? && o.Plain? ==>
          keys == o.props.Keys && store.Tracked(w.target, if o.isArray then Length else Iterate)
    {
      assert WellFormed(heap.objects[v], v, |heap.objects|);
      match heap.objects[v]
      case Plain(props, _, _) =>
        keys := props.Keys;
      case ReactiveProxy(_, _, _) =>
        keys := ReactiveOwnKeys(v);
      case Carrier(_, _) =>
        keys := {ValueKey, IsRefKey};
      case Host =>
        keys := {ValueKey};
    }

    /** The ownKeys trap: tracks `length` on an array and the iteration key otherwise. */
    method ReactiveOwnKeys(p: ObjId) returns (keys: set<Key>)
      requires Valid() && p < |heap.objects| && heap.objects[p].ReactiveProxy?
      modifies store
      decreases p, 0
      ensures Valid() && Evolved() && Quiet()
      ensures
        var t := old(heap.objects[p]).target;
        var o := old(heap.objects[t]);
        o.Plain? ==> keys == o.props.Keys && store.Tracked(t, if o.isArray then Length else Iterate)
    {
      assert WellFormed(heap.objects[p], p, |heap.objects|);
      var t := heap.objects[p].target;
      store.Track(t, if IsArray(t) then Length else Iterate);
      keys := OwnKeysOf(t);
    }

    /** The keys `for (const key in v)` visits: the enumerable own keys that are not symbols. */
    method ForInKeys(v: ObjId) returns (keys: set<Key>)
      requires Valid() && v < |heap.objects|
      modifies store
      ensures Valid() && Evolved() && Quiet()
      ensures forall k :: k in keys ==> !IsSymbol(k) && Enumerable(v, k)
      ensures old(heap.objects[v]).Plain? ==> keys == RawEnumerableKeys(old(heap.objects[v]))
      ensures
        var w := old(heap.objects[v]);
        w.ReactiveProxy? && old(heap.objects[w.target]).Plain? ==>
          keys == RawEnumerableKeys(old(heap.objects[w.target])) &&
          store.Tracked(w.target, if old(heap.objects[w.target]).isArray then Length else Iterate)
    {
      var own := OwnKeysOf(v);
      keys := set k | k in own && !IsSymbol(k) && Enumerable(v, k);
      assert WellFormed(heap.objects[v], v, |heap.objects|);
      if heap.objects[v].ReactiveProxy? {
        var t := heap.objects[v].target;
        var o := heap.objects[t];
        if o.Plain? {
          assert own == o.props.Keys;
          forall k ensures k in keys <==> k in RawEnumerableKeys(o) {
            assert Enumerable(v, k) == Enumerable(t, k);
          }
        }
      }
    }

    /**
      `Reflect.deleteProperty(v, k)`: an ordinary object drops the key, a
      wrapper runs its deleteProperty trap.
    */
    method DeleteProp(v: ObjId, k: Key) returns (r: Completion<Written>)
      requires Valid() && v < |heap.objects|
      modifies this, heap, store
      decreases v, 1
      ensures Valid() && Evolved() && Quiet()
      ensures
        var o := old(heap.objects[v]);
        o.Plain? ==>
          && r == Normal(Written(RawDelete(o, k).0, [])) && heap.objects == old(heap.objects)[v := RawDelete(o, k).1]
          && CachesKept() && store.bucket == old(store.bucket) && store.deps == old(store.deps)
      ensures old(heap.objects[v]).ReactiveProxy? && old(heap.objects[v]).readonly ==>
        r == Normal(Written(true, [])) && Unchanged()
      ensures
        var w := old(heap.objects[v]);
        w.ReactiveProxy? && !w.readonly && old(heap.objects[w.target]).Plain? ==> DeleteThrough(w.target, k, r)
    {
      assert WellFormed(heap.objects[v], v, |heap.objects|);
      match heap.objects[v]
      case Plain(_, _, _) =>
        var o := heap.objects[v];
        RawDeleteWellFormed(o, k, v, |heap.objects|);
        PutPlain(v, RawDelete(o, k).1);
        r := Normal(Written(RawDelete(o, k).0, []));
      case ReactiveProxy(_, _, _) =>
        r := ReactiveDelete(v, k);
      case Carrier(_, _) =>
        r := Normal(Written(k != ValueKey && k != IsRefKey, []));
      case Host =>
        r := Normal(Written(k != ValueKey, []));
    }

    /** The deleteProperty trap: a readonly wrapper refuses silently (and reports success). */
    method ReactiveDelete(p: ObjId, k: Key) returns (r: Completion<Written>)
      requires Valid() && p < |heap.objects| && heap.objects[p].ReactiveProxy?
      modifies this, heap, store
      decreases p, 0
      ensures Valid() && Evolved() && Quiet()
      ensures old(heap.objects[p]).readonly ==> r == Normal(Written(true, [])) && Unchanged()
      ensures
        var w := old(heap.objects[p]);
        !w.readonly && old(heap.objects[w.target]).Plain? ==> DeleteThrough(w.target, k, r)
    {
      assert WellFormed(heap.objects[p], p, |heap.objects|);
      if heap.objects[p].readonly {
        return Normal(Written(true, []));
      }
      r := TriggeredDelete(heap.objects[p].target, k);
    }

    /**
      The deleteProperty trap's delete from an ordinary target `t`: `trigger`
      with DELETE runs when the key was an own property and the delete
      succeeded.
    */
    twostate predicate DeleteThrough(t: ObjId, k: Key, new r: Completion<Written>)
      requires old(t < |heap.objects| && heap.objects[t].Plain?)
      reads this, heap, store
    {
      var o := old(heap.objects[t]);
      var res := RawDelete(o, k);
      && CachesKept() && store.bucket == old(store.bucket) && store.deps == old(store.deps)
      && heap.objects == old(heap.objects)[t := res.1]
      && if res.0 && RawHasOwn(o, k) then
           && (r.Throw? <==> TriggerThrows(old(store.bucket), t, k, Some(Delete), Undefined, o.isArray, old(store.active)))
           && (r.Normal? ==>
                && r.value.ok
                && TriggerPlan(old(store.bucket), t, k, Some(Delete), Undefined, o.isArray,
                               old(store.active), old(store.options), r.value.plan))
         else r == Normal(Written(res.0, []))
    }

    /** The deleteProperty trap past the readonly check. */
    method TriggeredDelete(t: ObjId, k: Key) returns (r: Completion<Written>)
      requires Valid() && t < |heap.objects|
      modifies this, heap, store
      decreases t, 2
      ensures Valid() && Evolved() && Quiet()
      ensures old(heap.objects[t]).Plain? ==> DeleteThrough(t, k, r)
    {
      var hadKey := HasOwn(t, k);
      var res := DeleteProp(t, k);
      if res.Throw? {
        return res;
      }
      if res.value.ok && hadKey {
        var plan := store.Trigger(t, k, Some(Delete), Undefined, IsArray(t));
        if plan.Throw? {
          return Throw(plan.error);
        }
        return Normal(Written(true, res.value.plan + plan.value));
      }
      r := res;
    }

    /**
      One access a mutator makes through the wrapper `p` with tracking off:
      nothing is tracked, and a refused write or delete throws TypeError. On
      a writable wrapper of an ordinary target, a write is the set trap's
      (with its trigger) and a delete the deleteProperty trap's.
    */
    method Perform(p: ObjId, a: Access) returns (r: Completion<Written>)
      requires Valid() && p < |heap.objects| && heap.objects[p].ReactiveProxy? && !store.shouldTrack
      requires a.Put? ==> ValueBelow(a.value, |heap.objects|)
      modifies this, heap, store
      ensures Valid() && !store.shouldTrack
      ensures store.bucket == old(store.bucket) && store.deps == old(store.deps)
      ensures store.stack == old(store.stack) && store.active == old(store.active)
      ensures store.options == old(store.options) && Extends(old(heap.objects), heap.objects)
      ensures a.Get? ==> r == Normal(Written(true, []))
      ensures !a.Get? && old(heap.objects[p]).readonly ==> r == Normal(Written(true, [])) && Unchanged()
      ensures
        var w := old(heap.objects[p]);
        a.Put? && !w.readonly && old(heap.objects[w.target]).Plain? ==>
          && CachesKept()
          && SetOutcome(old(heap.objects), heap.objects, w.target, a.key, a.value, true, true,
                        old(store.bucket), old(store.active), old(store.options), r)
      ensures
        var w := old(heap.objects[p]);
        a.Remove? && !w.readonly && old(heap.objects[w.target]).Plain? ==>
          var o := old(heap.objects[w.target]);
          var res := RawDelete(o, a.key);
          && CachesKept() && heap.objects == old(heap.objects)[w.target := res.1]
          && (!res.0 ==> r == Throw(TypeError))
          && (res.0 && !RawHasOwn(o, a.key) ==> r == Normal(Written(true, [])))
          && (res.0 && RawHasOwn(o, a.key) ==>
                && (r.Throw? <==> TriggerThrows(old(store.bucket), w.target, a.key, Some(Delete), Undefined, o.isArray,
                                                old(store.active)))
                && (r.Normal? ==> TriggerPlan(old(store.bucket), w.target, a.key, Some(Delete), Undefined, o.isArray,
                                              old(store.active), old(store.options), r.value.plan)))
    {
      match a
      case Get(k) =>
        var _ := GetProp(p, k);
        r := Normal(Written(true, []));
      case Put(k, v) =>
        ghost var before := heap.objects;
        var w := SetProp(p, k, v, ReceiverRaw(p));
        if !before[p].readonly && before[before[p].target].Plain? {
          StrictOutcome(before, heap.objects, before[p].target, k, v, true,
                        old(store.bucket), old(store.active), old(store.options), w);
        }
        r := Strict(w);
      case Remove(k) =>
        var w := DeleteProp(p, k);
        r := Strict(w);
    }

    /**
      An instrumented mutator (`push`, `pop`, `shift`, `unshift`, `splice`)
      called on the wrapper `p`: tracking is switched off, the method's reads
      and writes go through `p`, and tracking is switched on again. A write
      that is refused throws TypeError, and nothing switches tracking back on
      after a throw.
    */
    method CallMutator(p: ObjId, name: string, accesses: seq<Access>) returns (r: Completion<seq<Dispatch>>)
      requires Valid() && p < |heap.objects| && heap.objects[p].ReactiveProxy? && name in MutatorMethods
      requires forall i :: 0 <= i < |accesses| && accesses[i].Put? ==> ValueBelow(accesses[i].value, |heap.objects|)
      modifies this, heap, store
      ensures Valid()
      ensures store.bucket == old(store.bucket) && store.deps == old(store.deps)
      ensures store.stack == old(store.stack) && store.active == old(store.active)
      ensures store.options == old(store.options) && Extends(old(heap.objects), heap.objects)
      ensures r.Normal? ==> store.shouldTrack
      ensures r.Throw? ==> !store.shouldTrack
    {
      store.SetShouldTrack(false);
      var plans := [];
      for i := 0 to |accesses|
        invariant Valid() && !store.shouldTrack
        invariant store.bucket == old(store.bucket) && store.deps == old(store.deps)
        invariant store.stack == old(store.stack) && store.active == old(store.active)
        invariant store.options == old(store.options) && Extends(old(heap.objects), heap.objects)
        invariant p < |heap.objects| && heap.objects[p].ReactiveProxy?
      {
        var step := Perform(p, accesses[i]);
        if step.Throw? {
          return Throw(step.error);
        }
        plans := plans + step.value.plan;
      }
      store.SetShouldTrack(true);
      r := Normal(plans);
    }
  }
}
