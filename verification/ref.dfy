/**
  Refs: `ref(value)` wraps a one-property object reactively, `toRef` and
  `toRefs` build carriers whose `value` reads and writes a property of
  another object, and `proxyRefs` unwraps refs on read and writes through
  them.
*/
module Refs {
  import opened Values
  import opened Objects
  import opened Effects
  import opened Reactive

  /**
    The object `ref(v)` builds before wrapping it: `value` holds `v`, and
    `__v_isRef` is true, not writable, not enumerable and not deletable.
  */
  function RefObject(v: Value): (o: Object)
    ensures o.Plain? && !o.isArray
    ensures RawGet(o, ValueKey) == v && RawGet(o, IsRefKey) == Bool(true)
    ensures forall x :: RawSet(o, IsRefKey, x) == Normal((false, o))
    ensures !RawDelete(o, IsRefKey).0
    ensures RawEnumerableKeys(o) == {ValueKey}
  {
    var o := Plain(map[ValueKey := v, IsRefKey := Bool(true)], {IsRefKey}, false);
    assert forall k :: k in RawEnumerableKeys(o) <==> k == ValueKey;
    o
  }

  /** Writing `value` into a ref object gives the ref object of the new value. */
  lemma RefValueWrite(v: Value, x: Value)
    ensures RawSet(RefObject(v), ValueKey, x) == Normal((true, RefObject(x)))
  {
    assert ValueKey != IsRefKey;
    assert RefObject(v).props[ValueKey := x] == RefObject(x).props;
  }

  /** `ref(value)`: a new ref object, wrapped by `reactive`. */
  method Ref(rt: Runtime, v: Value) returns (p: ObjId)
    requires rt.Valid() && ValueBelow(v, |rt.heap.objects|)
    modifies rt, rt.heap
    ensures rt.Valid() && rt.Evolved()
    ensures
      var w := |old(rt.heap.objects)|;
      && p == w + 1
      && rt.heap.objects == old(rt.heap.objects) + [RefObject(v), ReactiveProxy(w, false, false)]
      && rt.reactiveMap == old(rt.reactiveMap)[w := p]
  {
    var w := rt.heap.Alloc(RefObject(v));
    assert w !in rt.reactiveMap by {
      assert Wraps(old(rt.heap.objects), rt.reactiveMap, false, false);
    }
    p := rt.Reactive(w);
  }

  /** `toRef(obj, key)`: a new carrier onto `obj[key]`. */
  method ToRef(rt: Runtime, obj: ObjId, key: Key) returns (c: ObjId)
    requires rt.Valid() && obj < |rt.heap.objects|
    modifies rt.heap
    ensures rt.Valid()
    ensures c == |old(rt.heap.objects)| && rt.heap.objects == old(rt.heap.objects) + [Carrier(obj, key)]
  {
    c := rt.heap.Alloc(Carrier(obj, key));
  }

  /**
    `toRefs(obj)`: a new ordinary object with a carrier onto `obj[key]` under
    each key `for...in` visits on `obj` (through a wrapper, that read tracks
    the iteration key).
  */
  method ToRefs(rt: Runtime, obj: ObjId) returns (ret: ObjId)
    requires rt.Valid() && obj < |rt.heap.objects|
    modifies rt.heap, rt.store
    ensures rt.Valid() && rt.Evolved() && rt.Quiet()
    ensures ret == |old(rt.heap.objects)| && ret < |rt.heap.objects|
    ensures CarriersOnto(rt.heap.objects, ret, obj)
    ensures old(rt.heap.objects[obj]).Plain? ==>
      rt.heap.objects[ret].props.Keys == RawEnumerableKeys(old(rt.heap.objects[obj]))
    ensures
      var w := old(rt.heap.objects[obj]);
      w.ReactiveProxy? && old(rt.heap.objects[w.target]).Plain? ==>
        && rt.heap.objects[ret].props.Keys == RawEnumerableKeys(old(rt.heap.objects[w.target]))
        && rt.store.Tracked(w.target, if old(rt.heap.objects[w.target]).isArray then Length else Iterate)
  {
    ret := rt.heap.Alloc(Plain(map[], {}, false));
    var keys := rt.ForInKeys(obj);
    FillRefs(rt, ret, obj, keys);
  }

  /** `ret` is an ordinary object whose every property holds a carrier onto the same key of `obj`. */
  ghost predicate CarriersOnto(objects: seq<Object>, ret: ObjId, obj: ObjId)
    requires ret < |objects|
  {
    var o := objects[ret];
    && o.Plain? && !o.isArray && o.frozen == {}
    && forall k :: k in o.props ==>
         o.props[k].Obj? && o.props[k].id < |objects| && objects[o.props[k].id] == Carrier(obj, k)
  }

  /** The loop of `toRefs`: `ret[key] = toRef(obj, key)` for each key. */
  method FillRefs(rt: Runtime, ret: ObjId, obj: ObjId, keys: set<Key>)
    requires rt.Valid() && obj < |rt.heap.objects| && ret < |rt.heap.objects|
    requires rt.heap.objects[ret] == Plain(map[], {}, false)
    modifies rt.heap
    ensures rt.Valid() && Extends(old(rt.heap.objects), rt.heap.objects)
    ensures CarriersOnto(rt.heap.objects, ret, obj) && rt.heap.objects[ret].props.Keys == keys
  {
    var todo := keys;
    while todo != {}
      invariant rt.Valid() && Extends(old(rt.heap.objects), rt.heap.objects)
      invariant CarriersOnto(rt.heap.objects, ret, obj) && rt.heap.objects[ret].props.Keys == keys - todo
      invariant todo <= keys
      decreases todo
    {
      var k :| k in todo;
      var c := ToRef(rt, obj, k);
      var o := rt.heap.objects[ret];
      rt.PutPlain(ret, o.(props := o.props[k := Obj(c)]));
      todo := todo - {k};
    }
  }

  /**
    `res.__v_isRef` as a condition: TypeError on undefined and null, false
    for the other primitives, and otherwise the property read (through a
    wrapper, a tracked read).
  */
  method IsRef(rt: Runtime, res: Value) returns (r: Completion<bool>)
    requires rt.Valid() && ValueBelow(res, |rt.heap.objects|)
    modifies rt, rt.heap, rt.store
    ensures rt.Valid() && rt.Evolved() && rt.Quiet()
    ensures r.Throw? <==> res == Undefined || res == Null
    ensures r.Throw? ==> r.error == TypeError
    ensures !res.Obj? ==> rt.Unchanged() && (r.Normal? ==> !r.value)
    ensures r == Normal(true) ==> res.Obj?
    ensures res.Obj? && old(rt.heap.objects[res.id]).Plain? ==>
      r == Normal(Truthy(RawGet(old(rt.heap.objects[res.id]), IsRefKey))) && rt.Unchanged()
    ensures res.Obj? && old(rt.heap.objects[res.id]).Carrier? ==> r == Normal(true) && rt.Unchanged()
    ensures
      var w := if res.Obj? then old(rt.heap.objects[res.id]) else Host;
      w.ReactiveProxy? && old(rt.heap.objects[w.target]).Plain? ==>
        && r == Normal(Truthy(RawGet(old(rt.heap.objects[w.target]), IsRefKey)))
        && (!RawGet(old(rt.heap.objects[w.target]), IsRefKey).Obj? ==>
              rt.heap.objects == old(rt.heap.objects) && rt.CachesKept())
        && (if w.readonly then rt.store.bucket == old(rt.store.bucket) && rt.store.deps == old(rt.store.deps)
            else rt.store.Tracked(w.target, IsRefKey))
  {
    if res == Undefined || res == Null {
      return Throw(TypeError);
    }
    if !res.Obj? {
      return Normal(false);
    }
    var b := ReadIsRef(rt, res.id);
    r := Normal(b);
  }

  /** `obj.__v_isRef` for an object `obj`, as a condition. */
  method ReadIsRef(rt: Runtime, obj: ObjId) returns (b: bool)
    requires rt.Valid() && obj < |rt.heap.objects|
    modifies rt, rt.heap, rt.store
    ensures rt.Valid() && rt.Evolved() && rt.Quiet()
    ensures old(rt.heap.objects[obj]).Plain? ==>
      b == Truthy(RawGet(old(rt.heap.objects[obj]), IsRefKey)) && rt.Unchanged()
    ensures old(rt.heap.objects[obj]).Carrier? ==> b && rt.Unchanged()
    ensures
      var w := old(rt.heap.objects[obj]);
      w.ReactiveProxy? && old(rt.heap.objects[w.target]).Plain? ==>
        && b == Truthy(RawGet(old(rt.heap.objects[w.target]), IsRefKey))
        && (!RawGet(old(rt.heap.objects[w.target]), IsRefKey).Obj? ==>
              rt.heap.objects == old(rt.heap.objects) && rt.CachesKept())
        && (if w.readonly then rt.store.bucket == old(rt.store.bucket) && rt.store.deps == old(rt.store.deps)
            else rt.store.Tracked(w.target, IsRefKey))
  {
    EngineKeys();
    var v := rt.GetProp(obj, IsRefKey);
    b := Truthy(v);
  }

  /** What the write contracts of `proxyRefs` observe of the runtime: objects, caches, dependencies and the effect state. */
  datatype Snapshot = Snapshot(
    objects: seq<Object>,
    caches: (map<ObjId, ObjId>, map<ObjId, ObjId>, map<ObjId, ObjId>, map<ObjId, ObjId>),
    bucket: Bucket,
    deps: map<EffectId, seq<Dep>>,
    active: Option<EffectId>,
    shouldTrack: bool,
    options: map<EffectId, EffectOptions>)

  /** The runtime state as a value. */
  ghost function Now(rt: Runtime): Snapshot
    reads rt, rt.heap, rt.store
  {
    Snapshot(rt.heap.objects,
             (rt.reactiveMap, rt.shallowReactiveMap, rt.readonlyMap, rt.shallowReadonlyMap),
             rt.store.bucket, rt.store.deps, rt.store.active, rt.store.shouldTrack, rt.store.options)
  }

  /** The handler of `proxyRefs(target)`. */
  class RefsProxy {
    const rt: Runtime
    const target: ObjId

    constructor (rt: Runtime, target: ObjId)
      ensures this.rt == rt && this.target == target
    {
      this.rt := rt;
      this.target := target;
    }

    ghost predicate Valid()
      reads this, rt, rt.heap, rt.store
    {
      rt.Valid() && target < |rt.heap.objects|
    }

    /**
      The get trap: `Reflect.get(target, p)`, and for a ref its `value`
      instead. Reading `__v_isRef` of undefined or null throws.
    */
    method Get(k: Key) returns (r: Completion<Value>)
      requires Valid()
      modifies rt, rt.heap, rt.store
      ensures Valid() && rt.Evolved() && rt.Quiet()
      ensures r.Normal? ==> ValueBelow(r.value, |rt.heap.objects|)
      ensures old(rt.heap.objects[target]).Plain? ==> Unwrapped(RawGet(old(rt.heap.objects[target]), k), r)
    {
      var res := ReadTarget(k);
      r := Unwrap(res);
    }

    /** `res.__v_isRef ? res.value : res` */
    method Unwrap(res: Value) returns (r: Completion<Value>)
      requires Valid() && ValueBelow(res, |rt.heap.objects|)
      modifies rt, rt.heap, rt.store
      ensures Valid() && rt.Evolved() && rt.Quiet()
      ensures r.Normal? ==> ValueBelow(r.value, |rt.heap.objects|)
      ensures Unwrapped(res, r)
    {
      if res.Obj? {
        r := UnwrapObject(res.id);
        return;
      }
      var isRef := IsRef(rt, res);
      if isRef.Throw? {
        return Throw(isRef.error);
      }
      r := Normal(res);
    }

    /** The unwrap decision for an object `res`: its `__v_isRef` decides. */
    method UnwrapObject(res: ObjId) returns (r: Completion<Value>)
      requires Valid() && res < |rt.heap.objects|
      modifies rt, rt.heap, rt.store
      ensures Valid() && rt.Evolved() && rt.Quiet()
      ensures r.Normal? ==> ValueBelow(r.value, |rt.heap.objects|)
      ensures Unwrapped(Obj(res), r)
    {
      var isRef := IsRefObject(res);
      if isRef {
        var v := ReadValue(res);
        return Normal(v);
      }
      r := Normal(Obj(res));
    }

    /** `res.value` for a ref `res`. */
    method ReadValue(ref: ObjId) returns (v: Value)
      requires Valid() && ref < |rt.heap.objects|
      modifies rt, rt.heap, rt.store
      ensures Valid() && rt.Evolved() && rt.Quiet()
      ensures ValueBelow(v, |rt.heap.objects|)
      ensures old(rt.heap.objects[ref]).Plain? ==> v == RawGet(old(rt.heap.objects[ref]), ValueKey) && rt.Unchanged()
      ensures
        var x := old(rt.heap.objects[ref]);
        x.Carrier? && old(rt.heap.objects[x.source]).Plain? ==>
          v == RawGet(old(rt.heap.objects[x.source]), x.key) && rt.Unchanged()
      ensures
        var x := old(rt.heap.objects[ref]);
        x.Carrier? && old(rt.heap.objects[x.source]).ReactiveProxy? ==>
          var s := old(rt.heap.objects[x.source]);
          var o := old(rt.heap.objects[s.target]);
          o.Plain? && x.key != RawKey && !(o.isArray && Instrumented(x.key)) ==>
            rt.ReadThrough(s.target, x.key, s.shallow, s.readonly, v)
      ensures
        var x := old(rt.heap.objects[ref]);
        x.ReactiveProxy? && !x.shallow && !x.readonly && old(rt.heap.objects[x.target]).Plain? ==>
          var o := old(rt.heap.objects[x.target]);
          !RawGet(o, ValueKey).Obj? ==>
            && v == RawGet(o, ValueKey) && rt.heap.objects == old(rt.heap.objects)
            && (old(rt.store.shouldTrack) && old(rt.store.active).Some? ==>
                  old(rt.store.active).value in Subscribers(rt.store.bucket, x.target, ValueKey))
    {
      v := rt.GetProp(ref, ValueKey);
    }

    /**
      What the get trap returns for the property value `res` of an ordinary
      target: TypeError for undefined and null, a ref's `value` (the value
      of a ref object, a carrier's source property (read through the
      source's get trap when the source is a wrapper), or a read through a
      ref wrapper, which subscribes the running effect), and `res` itself
      for anything else.
    */
    twostate predicate Unwrapped(res: Value, new r: Completion<Value>)
      requires old(rt.Valid() && ValueBelow(res, |rt.heap.objects|))
      reads this, rt, rt.heap, rt.store
    {
      && (res == Undefined || res == Null ==> r == Throw(TypeError) && rt.Unchanged())
      && (!res.Obj? && res != Undefined && res != Null ==> r == Normal(res) && rt.Unchanged())
      && (res.Obj? ==>
            var x := old(rt.heap.objects[res.id]);
            && (x.Plain? ==>
                  r == Normal(if Truthy(RawGet(x, IsRefKey)) then RawGet(x, ValueKey) else res) && rt.Unchanged())
            && (x.Carrier? && old(rt.heap.objects[x.source]).Plain? ==>
                  r == Normal(RawGet(old(rt.heap.objects[x.source]), x.key)) && rt.Unchanged())
            && (x.Carrier? && old(rt.heap.objects[x.source]).ReactiveProxy? ==>
                  var s := old(rt.heap.objects[x.source]);
                  var o := old(rt.heap.objects[s.target]);
                  o.Plain? && x.key != RawKey && !(o.isArray && Instrumented(x.key)) ==>
                    r.Normal? && rt.ReadThrough(s.target, x.key, s.shallow, s.readonly, r.value))
            && (x.ReactiveProxy? && !x.shallow && !x.readonly && old(rt.heap.objects[x.target]).Plain? ==>
                  var o := old(rt.heap.objects[x.target]);
                  RawGet(o, IsRefKey) == Bool(true) && !RawGet(o, ValueKey).Obj? ==>
                    && r == Normal(RawGet(o, ValueKey)) && rt.heap.objects == old(rt.heap.objects)
                    && (old(rt.store.shouldTrack) && old(rt.store.active).Some? ==>
                          old(rt.store.active).value in Subscribers(rt.store.bucket, x.target, ValueKey))))
    }

    /**
      The set trap: for a ref, `res.value = value` (a refused assignment
      throws TypeError) and true; otherwise `Reflect.set(target, p, value,
      receiver)`, where a wrapped target reads the receiver's `raw` back
      through this trap's get.
    */
    method Set(k: Key, value: Value) returns (r: Completion<Written>)
      requires Valid() && ValueBelow(value, |rt.heap.objects|)
      modifies rt, rt.heap, rt.store
      ensures Valid() && rt.Evolved() && rt.Quiet()
      ensures
        var s0 := old(Now(rt));
        s0.objects[target].Plain? ==> WrittenThrough(s0, RawGet(s0.objects[target], k), k, value, r)
    {
      var res := ReadTarget(k);
      r := WriteVia(res, k, value);
    }

    /** `Reflect.get(target, p, receiver)`, which both traps start with. */
    method ReadTarget(k: Key) returns (res: Value)
      requires Valid()
      modifies rt, rt.heap, rt.store
      ensures Valid() && rt.Evolved() && rt.Quiet()
      ensures ValueBelow(res, |rt.heap.objects|)
      ensures old(rt.heap.objects[target]).Plain? ==>
        res == RawGet(old(rt.heap.objects[target]), k) && Now(rt) == old(Now(rt))
    {
      res := rt.GetProp(target, k);
    }

    /** The set trap once `target[p]` is read as `res`. */
    method WriteVia(res: Value, k: Key, value: Value) returns (r: Completion<Written>)
      requires Valid() && ValueBelow(value, |rt.heap.objects|) && ValueBelow(res, |rt.heap.objects|)
      modifies rt, rt.heap, rt.store
      ensures Valid() && rt.Evolved() && rt.Quiet()
      ensures old(rt.heap.objects[target]).Plain? ==> WrittenThrough(old(Now(rt)), res, k, value, r)
    {
      if res.Obj? {
        r := WriteViaObject(res.id, k, value);
        return;
      }
      var isRef := IsRef(rt, res);
      if isRef.Throw? {
        return Throw(isRef.error);
      }
      r := WriteTarget(k, value);
    }

    /** The set trap when `target[p]` is an object: its `__v_isRef` decides. */
    method WriteViaObject(res: ObjId, k: Key, value: Value) returns (r: Completion<Written>)
      requires Valid() && ValueBelow(value, |rt.heap.objects|) && res < |rt.heap.objects|
      modifies rt, rt.heap, rt.store
      ensures Valid() && rt.Evolved() && rt.Quiet()
      ensures old(rt.heap.objects[target]).Plain? ==> WrittenToObject(old(Now(rt)), res, k, value, r)
    {
      var isRef := IsRefObject(res);
      if isRef {
        r := AssignValue(res, value);
      } else {
        r := WriteTarget(k, value);
      }
    }

    /**
      `res.__v_isRef` for an object `res`, as the set trap sees it: nothing
      observable changes, except that a read through a wrapper subscribes
      the running effect.
    */
    method IsRefObject(res: ObjId) returns (b: bool)
      requires Valid() && res < |rt.heap.objects|
      modifies rt, rt.heap, rt.store
      ensures Valid() && rt.Evolved() && rt.Quiet()
      ensures old(rt.heap.objects[res]).Plain? ==>
        b == Truthy(RawGet(old(rt.heap.objects[res]), IsRefKey)) && Now(rt) == old(Now(rt))
      ensures old(rt.heap.objects[res]).Carrier? ==> b && Now(rt) == old(Now(rt))
      ensures
        var x := old(rt.heap.objects[res]);
        x.ReactiveProxy? && old(rt.heap.objects[x.target]).Plain? &&
        RawGet(old(rt.heap.objects[x.target]), IsRefKey) == Bool(true) ==>
          && b && rt.heap.objects == old(rt.heap.objects)
          && (!(old(rt.store.shouldTrack) && old(rt.store.active).Some?) ==> Now(rt) == old(Now(rt)))
    {
      b := ReadIsRef(rt, res);
    }

    /** `res.value = value; return true` for a ref `res`. */
    method AssignValue(ref: ObjId, value: Value) returns (r: Completion<Written>)
      requires Valid() && ref < |rt.heap.objects| && ValueBelow(value, |rt.heap.objects|)
      modifies rt, rt.heap, rt.store
      ensures Valid() && rt.Evolved() && rt.Quiet()
      ensures old(rt.heap.objects[ref]).Plain? ==> Assigned(old(Now(rt)), ref, ValueKey, value, r)
      ensures
        var x := old(rt.heap.objects[ref]);
        x.Carrier? && old(rt.heap.objects[x.source]).Plain? ==> Assigned(old(Now(rt)), x.source, x.key, value, r)
      ensures
        var x := old(rt.heap.objects[ref]);
        x.Carrier? && old(rt.heap.objects[x.source]).ReactiveProxy? ==>
          var s := old(rt.heap.objects[x.source]);
          && (s.readonly ==> r == Normal(Written(true, [])) && Still(old(Now(rt))))
          && (!s.readonly && old(rt.heap.objects[s.target]).Plain? ==>
                StrictWritten(old(Now(rt)), s.target, x.key, value, r))
      ensures
        var x := old(rt.heap.objects[ref]);
        x.ReactiveProxy? && !x.readonly && old(rt.heap.objects[x.target]).Plain? ==>
          var o := old(rt.heap.objects[x.target]);
          !o.isArray && ValueKey !in o.frozen ==>
            && rt.heap.objects == old(rt.heap.objects)[x.target := RawSet(o, ValueKey, value).value.1]
            && r.Normal? && r.value.ok
            && if HasChanged(RawGet(o, ValueKey), value) then
                 TriggerPlan(old(rt.store.bucket), x.target, ValueKey,
                             Some(if ValueKey in o.props then TriggerType.Set else Add), value, false,
                             old(rt.store.active), old(rt.store.options), r.value.plan)
               else r.value.plan == []
    {
      var w := rt.SetProp(ref, ValueKey, value, rt.ReceiverRaw(ref));
      r := Strict(w);
    }

    /**
      `Reflect.set(target, p, value, receiver)` with this proxy as receiver:
      a wrapped target reads the receiver's `raw` through the get trap.
    */
    method WriteTarget(k: Key, value: Value) returns (r: Completion<Written>)
      requires Valid() && ValueBelow(value, |rt.heap.objects|)
      modifies rt, rt.heap, rt.store
      ensures Valid() && rt.Evolved() && rt.Quiet()
      ensures old(rt.heap.objects[target]).Plain? ==> PlainWritten(old(Now(rt)), target, k, value, r)
    {
      var receiverRaw := Undefined;
      if rt.heap.objects[target].ReactiveProxy? && !rt.heap.objects[target].readonly {
        var raw := Get(RawKey);
        if raw.Throw? {
          return Throw(raw.error);
        }
        receiverRaw := raw.value;
      }
      r := rt.SetProp(target, k, value, receiverRaw);
    }

    /** Since `s0`, the caches and the dependencies are as they were. */
    ghost predicate Kept(s0: Snapshot)
      reads rt, rt.heap, rt.store
    {
      var s := Now(rt);
      s.caches == s0.caches && s.bucket == s0.bucket && s.deps == s0.deps
    }

    /** Since `s0`, nothing the model observes has changed. */
    ghost predicate Still(s0: Snapshot)
      reads rt, rt.heap, rt.store
    {
      Kept(s0) && rt.heap.objects == s0.objects
    }

    /**
      `Reflect.set` into the ordinary object `v` as it was in `s0`: the
      write lands, or is refused (false), or throws; nothing is triggered.
    */
    ghost predicate PlainWritten(s0: Snapshot, v: ObjId, k: Key, val: Value, r: Completion<Written>)
      requires v < |s0.objects| && s0.objects[v].Plain?
      reads rt, rt.heap, rt.store
    {
      && Kept(s0)
      && match RawSet(s0.objects[v], k, val)
         case Throw(e) => r == Throw(e) && rt.heap.objects == s0.objects
         case Normal(res) => r == Normal(Written(res.0, [])) && rt.heap.objects == s0.objects[v := res.1]
    }

    /** The strict assignment `o[key] = value` to the ordinary object `id`: a refusal throws TypeError. */
    ghost predicate Assigned(s0: Snapshot, id: ObjId, key: Key, value: Value, r: Completion<Written>)
      requires id < |s0.objects| && s0.objects[id].Plain?
      reads rt, rt.heap, rt.store
    {
      && Kept(s0)
      && match RawSet(s0.objects[id], key, value)
         case Throw(e) => r == Throw(e) && rt.heap.objects == s0.objects
         case Normal(res) =>
           && rt.heap.objects == s0.objects[id := res.1]
           && r == if res.0 then Normal(Written(true, [])) else Throw(TypeError)
    }

    /**
      The strict assignment `o[key] = value` through a writable wrapper of
      the ordinary object `t` as it was in `s0`: that wrapper's set trap,
      with its trigger, and a refusal throwing TypeError.
    */
    ghost predicate StrictWritten(s0: Snapshot, t: ObjId, key: Key, value: Value, r: Completion<Written>)
      requires t < |s0.objects| && s0.objects[t].Plain?
      reads rt, rt.heap, rt.store
    {
      && Kept(s0)
      && SetOutcome(s0.objects, rt.heap.objects, t, key, value, true, true, s0.bucket, s0.active, s0.options, r)
    }

    /**
      What the set trap does when the ordinary target holds `res` under `k`:
      TypeError for undefined and null; an assignment to the `value` of a
      ref object, of a carrier's source property (through the source's set
      trap when the source is a wrapper), or through a ref wrapper (which
      triggers that wrapper's subscribers); otherwise the ordinary write into
      the target.
    */
    ghost predicate WrittenThrough(s0: Snapshot, res: Value, k: Key, value: Value, r: Completion<Written>)
      requires target < |s0.objects| && s0.objects[target].Plain? && ValueBelow(res, |s0.objects|)
      reads this, rt, rt.heap, rt.store
    {
      && (res == Undefined || res == Null ==> r == Throw(TypeError) && Still(s0))
      && (!res.Obj? && res != Undefined && res != Null ==> PlainWritten(s0, target, k, value, r))
      && (res.Obj? ==> WrittenToObject(s0, res.id, k, value, r))
    }

    /** `WrittenThrough` for an object `res`: by its `__v_isRef`, through its `value` or onto the target. */
    ghost predicate WrittenToObject(s0: Snapshot, res: ObjId, k: Key, value: Value, r: Completion<Written>)
      requires target < |s0.objects| && s0.objects[target].Plain? && res < |s0.objects|
      reads this, rt, rt.heap, rt.store
    {
      var x := s0.objects[res];
      && (x.Plain? && !Truthy(RawGet(x, IsRefKey)) ==> PlainWritten(s0, target, k, value, r))
      && (x.Plain? && Truthy(RawGet(x, IsRefKey)) ==> Assigned(s0, res, ValueKey, value, r))
      && (x.Carrier? && x.source < |s0.objects| && s0.objects[x.source].Plain? ==> Assigned(s0, x.source, x.key, value, r))
      && (x.Carrier? && x.source < |s0.objects| && s0.objects[x.source].ReactiveProxy? ==>
            var s := s0.objects[x.source];
            && (s.readonly ==> r == Normal(Written(true, [])) && Still(s0))
            && (!s.readonly && s.target < |s0.objects| && s0.objects[s.target].Plain? ==>
                  StrictWritten(s0, s.target, x.key, value, r)))
      && (x.ReactiveProxy? && !x.shallow && !x.readonly && x.target < |s0.objects| && s0.objects[x.target].Plain? ==>
            var o := s0.objects[x.target];
            RawGet(o, IsRefKey) == Bool(true) && !o.isArray && ValueKey !in o.frozen ==>
              && rt.heap.objects == s0.objects[x.target := RawSet(o, ValueKey, value).value.1]
              && r.Normal? && r.value.ok
              && (!(s0.shouldTrack && s0.active.Some?) ==>
                    if HasChanged(RawGet(o, ValueKey), value) then
                      TriggerPlan(s0.bucket, x.target, ValueKey,
                                  Some(if ValueKey in o.props then TriggerType.Set else Add), value, false,
                                  s0.active, s0.options, r.value.plan)
                    else r.value.plan == []))
    }
  }
}
