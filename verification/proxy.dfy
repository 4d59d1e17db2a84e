/**
  `toProxy(obj)`: the minimal tracking wrapper, whose get trap tracks every
  key (symbols included) and reads the target, and whose set trap writes the
  target and triggers the key with no change kind and no new value.
*/
module Tracking {
  import opened Values
  import opened Objects
  import opened Effects
  import opened Reactive

  /**
    Whom a write through the tracking proxy hands on, against the effects'
    deps (for any key but an array's `length`): exactly the effects whose
    last run read that key, other than the running one. So an effect that
    reads and writes the same key is not re-run by its own write, and an
    effect whose last run no longer read the key is not re-run either.
  */
  lemma ProxyWriteSelects(b: Bucket, deps: map<EffectId, seq<Dep>>, t: ObjId, k: Key, isArray: bool,
                          active: Option<EffectId>, options: map<EffectId, EffectOptions>,
                          plan: seq<Dispatch>, e: EffectId)
    requires Consistent(b, deps) && !(isArray && k == Length)
    requires TriggerPlan(b, t, k, None, Undefined, isArray, active, options, plan)
    ensures e in Targets(plan) <==> active != Some(e) && e in deps && Dep(t, k) in deps[e]
  {
    TriggerSelects(b, t, k, None, Undefined, isArray, active, options, plan, e);
    if e in deps {
      SubscriptionsAreDeps(b, deps, e);
    }
  }

  class TrackingProxy {
    const rt: Runtime
    const target: ObjId

    constructor (rt: Runtime, target: ObjId)
      ensures this.rt == rt && this.target == target
    {
      this.rt := rt;
      this.target := target;
    }

    ghost predicate Valid()
      reads this, rt, rt.heap, rt.store
    {
      rt.Valid() && target < |rt.heap.objects|
    }

    /** The get trap: `track(target, p)`, then `target[p]`. */
    method Get(k: Key) returns (r: Value)
      requires Valid()
      modifies rt, rt.heap, rt.store
      ensures Valid() && rt.Evolved()
      ensures ValueBelow(r, |rt.heap.objects|)
      ensures
        old(rt.heap.objects[target]).Plain? ==>
          && r == RawGet(old(rt.heap.objects[target]), k)
          && rt.heap.objects == old(rt.heap.objects) && rt.CachesKept()
          && rt.store.Tracked(target, k)
    {
      rt.store.Track(target, k);
      r := rt.GetProp(target, k);
    }

    /**
      The set trap: `target[p] = value` (a refused write throws TypeError in
      strict code), then `trigger(target, p)`; the trap itself reports true.
      The result is the effects the write hands on.
    */
    method Set(k: Key, value: Value) returns (r: Completion<seq<Dispatch>>)
      requires Valid() && ValueBelow(value, |rt.heap.objects|)
      modifies rt, rt.heap, rt.store
      ensures Valid() && rt.Evolved()
      ensures
        var o := old(rt.heap.objects[target]);
        o.Plain? ==>
          && rt.CachesKept() && rt.store.bucket == old(rt.store.bucket) && rt.store.deps == old(rt.store.deps)
          && match RawSet(o, k, value)
             case Throw(e) => r == Throw(e) && rt.heap.objects == old(rt.heap.objects)
             case Normal(res) =>
               && rt.heap.objects == old(rt.heap.objects)[target := res.1]
               && (!res.0 ==> r == Throw(TypeError))
               && (res.0 ==>
                     && (r.Throw? <==> TriggerThrows(old(rt.store.bucket), target, k, None, Undefined, o.isArray,
                                                     old(rt.store.active)))
                     && (r.Throw? ==> r.error == TypeError)
                     && (r.Normal? ==> TriggerPlan(old(rt.store.bucket), target, k, None, Undefined, o.isArray,
                                                   old(rt.store.active), old(rt.store.options), r.value)))
    {
      var w := rt.SetProp(target, k, value, rt.ReceiverRaw(target));
      if w.Throw? {
        return Throw(w.error);
      }
      if !w.value.ok {
        return Throw(TypeError);
      }
      var plan := rt.store.Trigger(target, k, None, Undefined, rt.IsArray(target));
      if plan.Throw? {
        return Throw(plan.error);
      }
      r := Normal(w.value.plan + plan.value);
    }
  }
}
