/**
  `computed(getter)`: a cached value behind a lazy effect. The cache is
  either dirty or clean; a read of `value` runs the getter only when dirty,
  and the effect's scheduler only marks it dirty (once) and triggers the
  readers of `value`.

  The getter is caller code: each read supplies the reads the getter would
  make and the value it would return if it ran now.
*/
module ComputedValues {
  import opened Values
  import opened Objects
  import opened Effects
  import opened Reactive

  /** What happens to a computed value: a read of `value`, or its scheduler firing. */
  datatype Event = ReadValue(result: Value) | Invalidate

  /** The closure state: `dirty` and `cachedValue`. */
  datatype CacheState = CacheState(dirty: bool, cached: Value)

  /** `let cachedValue` (undefined) and `dirty = true`. */
  const Initial: CacheState := CacheState(true, Undefined)

  /** One event: a read while dirty takes the getter's result; the scheduler only sets `dirty`. */
  function Step(s: CacheState, ev: Event): CacheState {
    match ev
    case ReadValue(x) => if s.dirty then CacheState(false, x) else s
    case Invalidate => CacheState(true, s.cached)
  }

  /** The state after a sequence of events. */
  function Replay(evs: seq<Event>): CacheState {
    if evs == [] then Initial else Step(Replay(evs[..|evs| - 1]), evs[|evs| - 1])
  }

  /** How many times the getter ran: reads that found the cache dirty. */
  function Runs(evs: seq<Event>): nat {
    if evs == [] then 0
    else
      var pre := evs[..|evs| - 1];
      Runs(pre) + if evs[|evs| - 1].ReadValue? && Replay(pre).dirty then 1 else 0
  }

  /** How many times the scheduler triggered `value`: invalidations that found the cache clean. */
  function Triggers(evs: seq<Event>): nat {
    if evs == [] then 0
    else
      var pre := evs[..|evs| - 1];
      Triggers(pre) + if evs[|evs| - 1].Invalidate? && !Replay(pre).dirty then 1 else 0
  }

  function CountReads(evs: seq<Event>): nat {
    if evs == [] then 0 else CountReads(evs[..|evs| - 1]) + if evs[|evs| - 1].ReadValue? then 1 else 0
  }

  function CountInvalidations(evs: seq<Event>): nat {
    if evs == [] then 0 else CountInvalidations(evs[..|evs| - 1]) + if evs[|evs| - 1].Invalidate? then 1 else 0
  }

  /** The result of the latest getter run, if there was one. */
  function LastRun(evs: seq<Event>): Option<Value> {
    if evs == [] then None
    else
      var pre := evs[..|evs| - 1];
      if evs[|evs| - 1].ReadValue? && Replay(pre).dirty then Some(evs[|evs| - 1].result) else LastRun(pre)
  }

  /**
    Runs and triggers alternate, starting with a run: the getter has run once
    more than the scheduler triggered when clean, and as often when dirty.
  */
  lemma {:induction false} RunsAndTriggersAlternate(evs: seq<Event>)
    ensures Runs(evs) == Triggers(evs) + if Replay(evs).dirty then 0 else 1
  {
    if evs != [] {
      RunsAndTriggersAlternate(evs[..|evs| - 1]);
    }
  }

  /** The getter runs only on reads, and the scheduler triggers only on invalidations. */
  lemma {:induction false} RunsOnlyOnReads(evs: seq<Event>)
    ensures Runs(evs) <= CountReads(evs)
    ensures Triggers(evs) <= CountInvalidations(evs)
  {
    if evs != [] {
      RunsOnlyOnReads(evs[..|evs| - 1]);
    }
  }

  /** When clean, the cached value is the result of the most recent getter run. */
  lemma {:induction false} CachedIsLastRun(evs: seq<Event>)
    ensures !Replay(evs).dirty ==> LastRun(evs) == Some(Replay(evs).cached)
  {
    if evs != [] {
      CachedIsLastRun(evs[..|evs| - 1]);
    }
  }

  /**
    After a read the cache is clean; the first read runs the getter; a second
    read with no invalidation between returns the same value and runs nothing.
  */
  lemma ReadCaches(evs: seq<Event>, x: Value, y: Value)
    ensures !Replay(evs + [ReadValue(x)]).dirty
    ensures Runs([ReadValue(x)]) == 1 && Replay([ReadValue(x)]).cached == x
    ensures Replay(evs + [ReadValue(x), ReadValue(y)]) == Replay(evs + [ReadValue(x)])
    ensures Runs(evs + [ReadValue(x), ReadValue(y)]) == Runs(evs + [ReadValue(x)])
  {
    var once, twice := evs + [ReadValue(x)], evs + [ReadValue(x), ReadValue(y)];
    assert once[..|once| - 1] == evs;
    assert twice[..|twice| - 1] == once;
    assert [ReadValue(x)][..0] == [];
  }

  /**
    The scheduler never runs the getter, and a second invalidation while
    dirty neither triggers nor changes anything.
  */
  lemma InvalidateOnce(evs: seq<Event>)
    ensures Runs(evs + [Invalidate]) == Runs(evs)
    ensures Replay(evs + [Invalidate]).dirty
    ensures Replay(evs + [Invalidate, Invalidate]) == Replay(evs + [Invalidate])
    ensures Triggers(evs + [Invalidate, Invalidate]) == Triggers(evs + [Invalidate]) <= Triggers(evs) + 1
  {
    var once, twice := evs + [Invalidate], evs + [Invalidate, Invalidate];
    assert once[..|once| - 1] == evs;
    assert twice[..|twice| - 1] == once;
  }

  /** The object `computed` returns, with the closure state it shares with its effect's scheduler. */
  class Computed {
    const rt: Runtime
    const effect: EffectId
    /** The returned object, whose `value` getter this class serves. */
    const obj: ObjId
    var dirty: bool
    var cachedValue: Value
    /** The reads and invalidations so far. */
    ghost var trace: seq<Event>

    ghost predicate Valid()
      reads this, rt, rt.heap, rt.store
    {
      && rt.Valid()
      && effect in rt.store.options && rt.store.options[effect] == EffectOptions(true, true)
      && obj < |rt.heap.objects| && rt.heap.objects[obj] == Host
      && CacheState(dirty, cachedValue) == Replay(trace)
    }

    /** `computed(getter)`: a lazy effect with a scheduler, not run yet, and the object serving `value`. */
    constructor (rt: Runtime)
      requires rt.Valid()
      modifies rt.heap, rt.store
      ensures Valid() && this.rt == rt && trace == []
      ensures effect !in old(rt.store.options)
      ensures rt.store.bucket == old(rt.store.bucket) && rt.store.deps == old(rt.store.deps)[effect := []]
      ensures obj == |old(rt.heap.objects)| && rt.heap.objects == old(rt.heap.objects) + [Host]
    {
      this.rt := rt;
      var e := rt.store.Register(EffectOptions(true, true));
      var o := rt.NewHost();
      effect, obj := e, o;
      dirty, cachedValue := true, Undefined;
      trace := [];
    }

    /**
      The `value` getter: when dirty, run the effect (the getter's reads are
      tracked for the computed's own effect) and keep its result; then
      `track(obj, 'value')` for whoever is reading, cache hit or not.
    */
    method Value(body: seq<Step>, result: Value) returns (r: Value)
      requires Valid()
      requires forall f :: f in NestedOrder(body) ==> f in rt.store.options
      modifies this, rt.store
      ensures Valid() && trace == old(trace) + [ReadValue(result)]
      ensures rt.store.deps.Keys == old(rt.store.deps).Keys
      ensures !dirty && r == cachedValue
      ensures old(dirty) ==> r == result
      ensures !old(dirty) ==> r == old(cachedValue) && rt.store.Tracked(obj, ValueKey)
      ensures old(dirty) && effect !in NestedOrder(body) && old(rt.store.active) != Some(effect) ==>
        rt.store.deps[effect] == if rt.store.shouldTrack then Reads(body) else []
      ensures
        var a := old(rt.store.active);
        a.Some? && a.value in old(rt.store.deps) && rt.store.shouldTrack &&
        (old(dirty) ==> a.value !in RunOrder(effect, body)) ==>
          && rt.store.deps[a.value] == old(rt.store.deps)[a.value] + [Dep(obj, ValueKey)]
          && a.value in Subscribers(rt.store.bucket, obj, ValueKey)
      ensures rt.store.stack == old(rt.store.stack) && rt.store.active == old(rt.store.active)
      ensures rt.store.shouldTrack == old(rt.store.shouldTrack) && rt.store.options == old(rt.store.options)
    {
      Refresh(body, result);
      rt.store.Track(obj, ValueKey);
      if rt.store.active.Some? && rt.store.shouldTrack {
        SubscriptionsAreDeps(rt.store.bucket, rt.store.deps, rt.store.active.value);
      }
      r := cachedValue;
    }

    /** `if (dirty) { cachedValue = effectFn(); dirty = false }` */
    method Refresh(body: seq<Step>, result: Value)
      requires Valid()
      requires forall f :: f in NestedOrder(body) ==> f in rt.store.options
      modifies this, rt.store
      ensures Valid() && trace == old(trace) + [ReadValue(result)]
      ensures rt.store.deps.Keys == old(rt.store.deps).Keys
      ensures !dirty && cachedValue == if old(dirty) then result else old(cachedValue)
      ensures !old(dirty) ==> rt.store.bucket == old(rt.store.bucket) && rt.store.deps == old(rt.store.deps)
      ensures old(dirty) && effect !in NestedOrder(body) ==>
        rt.store.deps[effect] == if rt.store.shouldTrack then Reads(body) else []
      ensures forall g :: g in old(rt.store.deps) && g !in RunOrder(effect, body) ==>
        rt.store.deps[g] == old(rt.store.deps)[g]
      ensures rt.store.stack == old(rt.store.stack) && rt.store.active == old(rt.store.active)
      ensures rt.store.shouldTrack == old(rt.store.shouldTrack) && rt.store.options == old(rt.store.options)
      ensures rt.store.nextEffect == old(rt.store.nextEffect)
    {
      if dirty {
        rt.store.Run(effect, body);
        cachedValue := result;
        dirty := false;
      }
      trace := trace + [ReadValue(result)];
      assert trace[..|trace| - 1] == old(trace);
    }

    /**
      The scheduler: when clean, mark dirty and `trigger(obj, 'value')`,
      giving the readers to re-run; when already dirty, nothing.
    */
    method Schedule() returns (plan: seq<Dispatch>)
      requires Valid()
      modifies this
      ensures Valid() && trace == old(trace) + [Invalidate]
      ensures dirty && cachedValue == old(cachedValue)
      ensures old(dirty) ==> plan == []
      ensures !old(dirty) ==>
        TriggerPlan(rt.store.bucket, obj, ValueKey, None, Undefined, false, rt.store.active, rt.store.options, plan)
    {
      plan := [];
      if !dirty {
        dirty := true;
        var p := rt.store.Trigger(obj, ValueKey, None, Undefined, false);
        plan := p.value;
      }
      trace := trace + [Invalidate];
      assert trace[..|trace| - 1] == old(trace);
    }
  }
}
