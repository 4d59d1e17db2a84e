/**
  The JavaScript objects the engine works on, all kept in one heap and named
  by their index: ordinary objects and arrays (with the ordinary
  [[Get]]/[[Set]]/[[Delete]] rules, array `length` included), reactive
  wrappers (Proxy objects whose handler is the reactive one), the carriers
  `toRef` makes, and host objects whose only property is served by one of the
  model's classes.
*/
module Objects {
  import opened Values

  /** 2^32 - 1: the largest array length; indices are the integers below it. */
  const MaxLength: nat := 0xFFFF_FFFF

  const ValueKey: Key := Name("value")
  const IsRefKey: Key := Name("__v_isRef")
  const RawKey: Key := Name("raw")

  datatype Object =
      /**
        An ordinary object (or array, when `isArray`). `frozen` holds the keys
        defined with `Object.defineProperty(o, k, { value })`: not writable,
        not enumerable, not configurable. An array keeps its length under
        `Length` as a number.
      */
    | Plain(props: map<Key, Value>, frozen: set<Key>, isArray: bool)
      /** `new Proxy(target, handler)` with the handler of `createReactive(target, shallow, readonly)`. */
    | ReactiveProxy(target: ObjId, shallow: bool, readonly: bool)
      /** The object `toRef(obj, key)` returns: a `value` accessor onto `obj[key]`, and `__v_isRef`. */
    | Carrier(source: ObjId, key: Key)
      /** An object whose one property, `value`, is served by a class of the model. */
    | Host

  /** The length of an array object, as stored under `Length`. */
  function ArrayLength(o: Object): nat
    requires o.Plain? && o.isArray
  {
    if Length in o.props && o.props[Length].Num? && o.props[Length].n >= 0 then o.props[Length].n else 0
  }

  /** The value refers to an object among the first `n`, or is no object. */
  predicate ValueBelow(v: Value, n: nat) {
    v.Obj? ==> v.id < n
  }

  /**
    An object at index `i` of a heap of `n` objects: its values refer to
    existing objects, the objects a wrapper or carrier forwards to come before
    it, and an array has a valid length and no frozen `length`.
  */
  predicate WellFormed(o: Object, i: nat, n: nat) {
    match o
    case Plain(props, frozen, isArray) =>
      && (forall k :: k in props ==> ValueBelow(props[k], n))
      && (isArray ==> Length in props && props[Length].Num? && 0 <= props[Length].n <= MaxLength)
      && (isArray ==> Length !in frozen)
    case ReactiveProxy(target, _, _) => target < i
    case Carrier(source, _) => source < i
    case Host => true
  }

  /** `o[k]` on an ordinary object, without the prototype chain. */
  function RawGet(o: Object, k: Key): (r: Value)
    requires o.Plain?
    ensures k !in o.props ==> r == Undefined
  {
    if k in o.props then o.props[k] else Undefined
  }

  /** `Object.prototype.hasOwnProperty.call(o, k)` on an ordinary object. */
  predicate RawHasOwn(o: Object, k: Key)
    requires o.Plain?
  {
    k in o.props
  }

  /** `k` is an array index key of an array. */
  predicate IsArrayIndex(o: Object, k: Key)
    requires o.Plain?
  {
    o.isArray && k.Idx? && k.index < MaxLength
  }

  /** `props` without the indices at or beyond `n`. */
  function Truncate(props: map<Key, Value>, n: nat): (r: map<Key, Value>)
    ensures forall k :: k in r <==> k in props && !(k.Idx? && k.index >= n)
    ensures forall k :: k in r ==> r[k] == props[k]
  {
    map k | k in props && !(k.Idx? && k.index >= n) :: props[k]
  }

  /**
    `Reflect.set(o, k, v)` on an ordinary object: false for a frozen key; on
    an array, writing `length` truncates or extends and throws RangeError for
    a value that is not a valid length, and writing an index at or beyond
    the length extends it.
  */
  function RawSet(o: Object, k: Key, v: Value): (r: Completion<(bool, Object)>)
    requires o.Plain?
    ensures r.Throw? <==> k !in o.frozen && o.isArray && k == Length && !ValidLength(v)
    ensures r.Throw? ==> r.error == RangeError
    ensures r.Normal? ==> r.value.1.Plain? && r.value.1.frozen == o.frozen && r.value.1.isArray == o.isArray
    ensures r.Normal? ==> (r.value.0 <==> k !in o.frozen)
    ensures r.Normal? && !r.value.0 ==> r.value.1 == o
  {
    if k in o.frozen then Normal((false, o))
    else if o.isArray && k == Length then
      if ValidLength(v) then
        var n := ToNumber(v).n;
        Normal((true, o.(props := Truncate(o.props, n)[Length := Num(n)])))
      else Throw(RangeError)
    else if IsArrayIndex(o, k) && k.index >= ArrayLength(o) then
      Normal((true, o.(props := o.props[k := v][Length := Num(k.index + 1)])))
    else Normal((true, o.(props := o.props[k := v])))
  }

  /** `ToUint32(v) === ToNumber(v)`: the value is usable as an array length. */
  predicate ValidLength(v: Value) {
    ToNumber(v).Finite? && 0 <= ToNumber(v).n <= MaxLength
  }

  /**
    `Reflect.deleteProperty(o, k)` on an ordinary object: true for an absent
    key, false for a frozen key and for an array's `length`.
  */
  function RawDelete(o: Object, k: Key): (r: (bool, Object))
    requires o.Plain?
    ensures r.1.Plain? && r.1.frozen == o.frozen && r.1.isArray == o.isArray
    ensures !r.0 <==> k in o.props && (k in o.frozen || (o.isArray && k == Length))
    ensures r.0 ==> r.1.props == o.props - {k}
    ensures !r.0 ==> r.1 == o
  {
    if k !in o.props then (true, o)
    else if k in o.frozen || (o.isArray && k == Length) then (false, o)
    else (true, o.(props := o.props - {k}))
  }

  /** The keys `for...in` visits on an ordinary object: enumerable and not symbols. */
  function RawEnumerableKeys(o: Object): (r: set<Key>)
    requires o.Plain?
    ensures forall k :: k in r <==>
      k in o.props && k !in o.frozen && !IsSymbol(k) && !(o.isArray && k == Length)
  {
    set k | k in o.props && k !in o.frozen && !IsSymbol(k) && !(o.isArray && k == Length)
  }

  /** A read after a successful write returns the written value, except an array length write. */
  lemma SetThenGet(o: Object, k: Key, v: Value)
    requires o.Plain? && RawSet(o, k, v).Normal? && RawSet(o, k, v).value.0
    requires !(o.isArray && k == Length)
    ensures RawGet(RawSet(o, k, v).value.1, k) == v
    ensures forall j :: j != k && j != Length ==> RawGet(RawSet(o, k, v).value.1, j) == RawGet(o, j)
  {
  }

  /** Writing a valid length leaves exactly that length and no index at or beyond it. */
  lemma LengthWrite(o: Object, v: Value)
    requires o.Plain? && o.isArray && Length !in o.frozen && ValidLength(v)
    ensures RawSet(o, Length, v).Normal?
    ensures ArrayLength(RawSet(o, Length, v).value.1) == ToNumber(v).n
    ensures forall i: nat :: Idx(i) in RawSet(o, Length, v).value.1.props ==> i < ToNumber(v).n
  {
  }

  /** A write of a value that refers to existing objects keeps the object well formed. */
  lemma RawSetWellFormed(o: Object, k: Key, v: Value, i: nat, n: nat)
    requires o.Plain? && WellFormed(o, i, n) && ValueBelow(v, n) && RawSet(o, k, v).Normal?
    ensures WellFormed(RawSet(o, k, v).value.1, i, n)
    ensures SameShape(o, RawSet(o, k, v).value.1)
  {
  }

  /** A delete keeps the object well formed. */
  lemma RawDeleteWellFormed(o: Object, k: Key, i: nat, n: nat)
    requires o.Plain? && WellFormed(o, i, n)
    ensures WellFormed(RawDelete(o, k).1, i, n)
    ensures SameShape(o, RawDelete(o, k).1)
  {
  }

  /** Each step keeps every object's kind: wrappers, carriers and hosts stay, ordinary objects stay ordinary. */
  predicate SameShape(a: Object, b: Object) {
    if a.Plain? then b.Plain? && b.isArray == a.isArray && b.frozen == a.frozen else b == a
  }

  /** `b` is `a` after some steps: objects only get added, and keep their shape. */
  predicate Extends(a: seq<Object>, b: seq<Object>) {
    |a| <= |b| && forall i :: 0 <= i < |a| ==> SameShape(a[i], b[i])
  }

  /** The heap of all objects, named by their index. */
  class Heap {
    var objects: seq<Object>

    ghost predicate Valid()
      reads this
    {
      forall i :: 0 <= i < |objects| ==> WellFormed(objects[i], i, |objects|)
    }

    constructor ()
      ensures Valid() && objects == []
    {
      objects := [];
    }

    /** A new object, at the next index. */
    method Alloc(o: Object) returns (id: ObjId)
      requires Valid() && WellFormed(o, |objects|, |objects| + 1)
      modifies this
      ensures Valid()
      ensures id == |old(objects)| && objects == old(objects) + [o]
      ensures Extends(old(objects), objects)
    {
      id := |objects|;
      objects := objects + [o];
      forall i | 0 <= i < |objects|
        ensures WellFormed(objects[i], i, |objects|)
      {
        if i < id {
          assert WellFormed(old(objects)[i], i, id);
        }
      }
    }

    /** An ordinary object changed in place. */
    method Put(id: ObjId, o: Object)
      requires Valid() && id < |objects| && objects[id].Plain?
      requires SameShape(objects[id], o) && WellFormed(o, id, |objects|)
      modifies this
      ensures Valid()
      ensures objects == old(objects)[id := o]
      ensures Extends(old(objects), objects)
    {
      objects := objects[id := o];
    }
  }
}
