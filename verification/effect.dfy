/**
  The dependency store and the effect runner: the global bucket
  (target -> key -> set of effects), each effect's `deps` list, the
  active-effect stack, the `shouldTrack` switch, `track`, `cleanup`, running
  an effect and `trigger`'s choice of the effects to re-run.

  Effects are identifiers. What an effect's function does when it runs is
  given per run as a sequence of steps: tracked reads, and runs of other
  effects nested inside it.
*/
module Effects {
  import opened Values

  type EffectId = nat

  /** The change kinds passed to `trigger`. */
  datatype TriggerType = Set | Add | Delete

  /** A subscriber set, named by the (target, key) it belongs to. */
  datatype Dep = Dep(target: ObjId, key: Key)

  /** `lazy` and whether a scheduler was supplied. */
  datatype EffectOptions = EffectOptions(lazy: bool, hasScheduler: bool)

  /** What `trigger` does with one selected effect. */
  datatype Dispatch = Schedule(effect: EffectId) | RunNow(effect: EffectId)

  /** One thing an effect's function does while it runs. */
  datatype Step =
    | Read(target: ObjId, key: Key)
    | Nested(effect: EffectId, body: seq<Step>)

  type DepsMap = map<Key, set<EffectId>>
  type Bucket = map<ObjId, DepsMap>

  function Top(stack: seq<EffectId>): Option<EffectId> {
    if stack == [] then None else Some(stack[|stack| - 1])
  }

  /** The subscribers of (t, k); absent entries read as the empty set. */
  function Subscribers(b: Bucket, t: ObjId, k: Key): set<EffectId> {
    if t in b && k in b[t] then b[t][k] else {}
  }

  function Lookup(m: DepsMap, k: Key): set<EffectId> {
    if k in m then m[k] else {}
  }

  /** The bucket after `track` adds `e` under (t, k), creating missing entries. */
  function Subscribe(b: Bucket, t: ObjId, k: Key, e: EffectId): (r: Bucket)
    ensures forall t', k' ::
              Subscribers(r, t', k') ==
              if t' == t && k' == k then Subscribers(b, t, k) + {e} else Subscribers(b, t', k')
    ensures b.Keys <= r.Keys
  {
    var m := if t in b then b[t] else map[];
    var s := if k in m then m[k] else {};
    var m': DepsMap := m[k := s + {e}];
    b[t := m']
  }

  /** The bucket after `cleanup` deletes `e` from each set listed in `ds`. */
  function Unsubscribe(b: Bucket, ds: seq<Dep>, e: EffectId): (r: Bucket)
    ensures r.Keys == b.Keys
    ensures forall t :: t in b ==> r[t].Keys == b[t].Keys
  {
    if ds == [] then b
    else
      var r' := Unsubscribe(b, ds[..|ds| - 1], e);
      var d := ds[|ds| - 1];
      if d.target in r' && d.key in r'[d.target] then
        var m: DepsMap := r'[d.target][d.key := r'[d.target][d.key] - {e}];
        r'[d.target := m]
      else r'
  }

  /** Cleanup removes exactly `e`, and only from the listed sets. */
  lemma {:induction false} UnsubscribeSpec(b: Bucket, ds: seq<Dep>, e: EffectId, t: ObjId, k: Key)
    ensures Subscribers(Unsubscribe(b, ds, e), t, k) ==
      if Dep(t, k) in ds then Subscribers(b, t, k) - {e} else Subscribers(b, t, k)
  {
    if ds != [] {
      var prefix, d := ds[..|ds| - 1], ds[|ds| - 1];
      var r' := Unsubscribe(b, prefix, e);
      UnsubscribeSpec(b, prefix, e, t, k);
      assert Dep(t, k) in ds <==> Dep(t, k) in prefix || d == Dep(t, k) by {
        assert ds == prefix + [d];
      }
      if d == Dep(t, k) && t in r' && k in r'[t] {
        assert Subscribers(Unsubscribe(b, ds, e), t, k) == Subscribers(r', t, k) - {e};
      } else {
        assert Subscribers(Unsubscribe(b, ds, e), t, k) == Subscribers(r', t, k);
      }
    }
  }

  /** The array methods `arrayInstrumentations` replaces on a wrapped array. */
  const SearchMethods: set<string> := {"includes", "indexOf", "lastIndexOf"}
  const MutatorMethods: set<string> := {"push", "pop", "shift", "unshift", "splice"}

  /** `arrayInstrumentations.hasOwnProperty(k)` */
  predicate Instrumented(k: Key) {
    k.Name? && (k.name in SearchMethods || k.name in MutatorMethods)
  }

  /** The effects of `s` other than the running one. */
  function Others(s: set<EffectId>, active: Option<EffectId>): set<EffectId> {
    if active.Some? then s - {active.value} else s
  }

  /** Leaving out the running effect distributes over union. */
  lemma OthersUnion(a: set<EffectId>, b: set<EffectId>, active: Option<EffectId>)
    ensures Others(a + b, active) == Others(a, active) + Others(b, active)
  {
  }

  /**
    `Number(k) >= newVal` for a key that is not a symbol: an index, or a
    numeric name such as "01", at or beyond the new length.
  */
  predicate AtOrBeyond(k: Key, newVal: Value) {
    var n := KeyToNumber(k);
    n.Normal? && n.value.Finite? && ToNumber(newVal).Finite? && n.value.n >= ToNumber(newVal).n
  }

  /**
    Setting `length` to 0 reaches the name "01" (its number is 1) and the
    index 3, and setting it to 2 does not reach "-1" or a name that is no
    number.
  */
  lemma LengthScanReachesNumericNames()
    ensures AtOrBeyond(KeyOf("01"), Num(0)) && AtOrBeyond(Idx(3), Str("2"))
    ensures !AtOrBeyond(KeyOf("-1"), Num(2)) && !AtOrBeyond(KeyOf("x"), Num(0)) && !AtOrBeyond(Length, Num(0))
  {
    NumericNames();
    assert StringToNumber("2") == Finite(2) by {
      assert AllDigits("2") && "2"[..0] == "";
    }
  }

  /** The subscribers of every key at or beyond `newVal`. */
  function Beyond(m: DepsMap, keys: set<Key>, newVal: Value): set<EffectId> {
    set k, e | k in keys && k in m && e in m[k] && AtOrBeyond(k, newVal) :: e
  }

  /**
    The effects one `trigger` call hands on, or the TypeError it throws when
    the length scan converts a symbol key with `Number`.
  */
  function Select(m: DepsMap, isArray: bool, key: Key, kind: Option<TriggerType>,
                  newVal: Value, active: Option<EffectId>): Completion<set<EffectId>>
  {
    if isArray && key == Length then
      if HasSymbolKey(m) then Throw(TypeError)
      else Normal(Others(Keyed(m, isArray, key, kind) + Beyond(m, m.Keys, newVal), active))
    else Normal(Others(Keyed(m, isArray, key, kind), active))
  }

  /** The subscribers of the key itself, of iteration on ADD/DELETE and of `length` on an array ADD. */
  function Keyed(m: DepsMap, isArray: bool, key: Key, kind: Option<TriggerType>): set<EffectId> {
    Lookup(m, key)
    + (if kind == Some(Add) || kind == Some(Delete) then Lookup(m, Iterate) else {})
    + (if kind == Some(Add) && isArray then Lookup(m, Length) else {})
  }

  predicate HasSymbolKey(m: DepsMap) {
    exists k :: k in m && IsSymbol(k)
  }

  /** `trigger` hands on `plan`: nothing when the target has no map, else one dispatch per selected effect. */
  predicate TriggerPlan(b: Bucket, t: ObjId, key: Key, kind: Option<TriggerType>, newVal: Value, isArray: bool,
                        active: Option<EffectId>, options: map<EffectId, EffectOptions>, plan: seq<Dispatch>)
  {
    if t !in b then plan == []
    else Select(b[t], isArray, key, kind, newVal, active).Normal? &&
         DispatchPlan(plan, Select(b[t], isArray, key, kind, newVal, active).value, options)
  }

  /** `trigger` throws: the length scan meets a symbol key. */
  predicate TriggerThrows(b: Bucket, t: ObjId, key: Key, kind: Option<TriggerType>, newVal: Value, isArray: bool,
                          active: Option<EffectId>)
  {
    t in b && Select(b[t], isArray, key, kind, newVal, active).Throw?
  }

  /**
    Whom `trigger` hands on, against the subscriptions: every effect other
    than the running one that read the key, the iteration key (on ADD and
    DELETE), an array's `length` (on ADD), or, when an array's `length` is
    set, an index at or beyond the new length; and nobody else.
  */
  lemma TriggerSelects(b: Bucket, t: ObjId, key: Key, kind: Option<TriggerType>, newVal: Value, isArray: bool,
                       active: Option<EffectId>, options: map<EffectId, EffectOptions>, plan: seq<Dispatch>, e: EffectId)
    requires TriggerPlan(b, t, key, kind, newVal, isArray, active, options, plan)
    ensures e in Targets(plan) <==>
      && active != Some(e)
      && (|| e in Subscribers(b, t, key)
          || ((kind == Some(Add) || kind == Some(Delete)) && e in Subscribers(b, t, Iterate))
          || (kind == Some(Add) && isArray && e in Subscribers(b, t, Length))
          || (isArray && key == Length && exists k :: AtOrBeyond(k, newVal) && e in Subscribers(b, t, k)))
  {
    if t in b {
      var m := b[t];
      assert Targets(plan) == Select(m, isArray, key, kind, newVal, active).value;
      if isArray && key == Length {
        if e in Beyond(m, m.Keys, newVal) {
          var k :| k in m && e in m[k] && AtOrBeyond(k, newVal);
          assert e in Subscribers(b, t, k);
        }
        if exists k :: AtOrBeyond(k, newVal) && e in Subscribers(b, t, k) {
          var k :| AtOrBeyond(k, newVal) && e in Subscribers(b, t, k);
          assert e in Beyond(m, m.Keys, newVal);
        }
      }
    }
  }

  /** The effects a dispatch list names. */
  function Targets(plan: seq<Dispatch>): set<EffectId> {
    set d | d in plan :: d.effect
  }

  /** Exactly one dispatch per selected effect, to its scheduler if it has one. */
  predicate DispatchPlan(plan: seq<Dispatch>, selected: set<EffectId>, options: map<EffectId, EffectOptions>) {
    && Targets(plan) == selected
    && (forall i, j :: 0 <= i < j < |plan| ==> plan[i].effect != plan[j].effect)
    && (forall i :: 0 <= i < |plan| ==>
          plan[i].effect in options && (plan[i].Schedule? <==> options[plan[i].effect].hasScheduler))
  }

  /** The read a single step of an effect's function makes itself, if any. */
  function StepReads(s: Step): seq<Dep> {
    match s
    case Read(t, k) => [Dep(t, k)]
    case Nested(_, _) => []
  }

  /** The tracked reads an effect's function makes itself, in order. */
  function Reads(body: seq<Step>): seq<Dep> {
    if body == [] then [] else Reads(body[..|body| - 1]) + StepReads(body[|body| - 1])
  }

  /** The effects a run of `e` with `body` starts, in the order they start. */
  function RunOrder(e: EffectId, body: seq<Step>): seq<EffectId>
    decreases body, 1
  {
    [e] + NestedOrder(body)
  }

  /** The effects the nested runs of `body` start, in order. */
  function NestedOrder(body: seq<Step>): seq<EffectId>
    decreases body, 0
  {
    if body == [] then [] else NestedOrder(body[..|body| - 1]) + StepRuns(body[|body| - 1])
  }

  /** The effects a single step starts. */
  function StepRuns(s: Step): seq<EffectId>
    decreases s, 2
  {
    match s
    case Read(_, _) => []
    case Nested(f, b) => RunOrder(f, b)
  }

  /**
    The first `i + 1` steps: the reads and runs of the first `i`, then step
    `i`'s; and step `i`'s runs are among the whole body's.
  */
  lemma OrderStep(body: seq<Step>, i: nat)
    requires i < |body|
    ensures NestedOrder(body[..i + 1]) == NestedOrder(body[..i]) + StepRuns(body[i])
    ensures Reads(body[..i + 1]) == Reads(body[..i]) + StepReads(body[i])
    ensures forall g :: g in StepRuns(body[i]) ==> g in NestedOrder(body)
  {
    assert body[..i + 1] == body[..i] + [body[i]];
    LastStep(body[..i + 1], body[..i], body[i]);
    NestedOrderPrefix(body, i + 1);
    forall g | g in StepRuns(body[i]) ensures g in NestedOrder(body) {
      PrefixHas(NestedOrder(body[..i]), StepRuns(body[i]), NestedOrder(body), g);
    }
  }

  /** A body is its prefix and its last step. */
  lemma LastStep(b: seq<Step>, pre: seq<Step>, last: Step)
    requires b == pre + [last]
    ensures NestedOrder(b) == NestedOrder(pre) + StepRuns(last)
    ensures Reads(b) == Reads(pre) + StepReads(last)
  {
    assert b[..|b| - 1] == pre;
  }

  /** An element of the second part of a prefix of `whole` is in `whole`. */
  lemma PrefixHas(a: seq<EffectId>, b: seq<EffectId>, whole: seq<EffectId>, g: EffectId)
    requires a + b <= whole && g in b
    ensures g in whole
  {
    var j :| 0 <= j < |b| && b[j] == g;
    assert whole[|a| + j] == (a + b)[|a| + j] == g;
  }

  lemma {:induction false} NestedOrderPrefix(body: seq<Step>, n: nat)
    requires n <= |body|
    ensures NestedOrder(body[..n]) <= NestedOrder(body)
    decreases |body| - n
  {
    if n < |body| {
      NestedOrderPrefix(body, n + 1);
      assert body[..n + 1][..n] == body[..n];
    } else {
      assert body[..n] == body;
    }
  }

  /**
    The store's central invariant: an effect is in the subscriber set of
    (t, k) exactly when that set is listed in the effect's deps.
  */
  ghost predicate Consistent(b: Bucket, deps: map<EffectId, seq<Dep>>) {
    && (forall t, k, e :: e in Subscribers(b, t, k) ==> e in deps && Dep(t, k) in deps[e])
    && (forall e, d :: e in deps && d in deps[e] ==> e in Subscribers(b, d.target, d.key))
  }

  /** `track` keeps the invariant. */
  lemma TrackConsistent(b: Bucket, deps: map<EffectId, seq<Dep>>, t: ObjId, k: Key, e: EffectId)
    requires Consistent(b, deps) && e in deps
    ensures Consistent(Subscribe(b, t, k, e), deps[e := deps[e] + [Dep(t, k)]])
  {
  }

  /**
    `cleanup` keeps the invariant, and afterwards the effect is in no
    subscriber set at all while every other effect keeps its subscriptions.
  */
  lemma CleanupConsistent(b: Bucket, deps: map<EffectId, seq<Dep>>, e: EffectId)
    requires Consistent(b, deps) && e in deps
    ensures Consistent(Unsubscribe(b, deps[e], e), deps[e := []])
    ensures forall t, k :: Subscribers(Unsubscribe(b, deps[e], e), t, k) == Subscribers(b, t, k) - {e}
  {
    var r := Unsubscribe(b, deps[e], e);
    forall t, k ensures Subscribers(r, t, k) == Subscribers(b, t, k) - {e} {
      UnsubscribeSpec(b, deps[e], e, t, k);
    }
  }

  /** Under the invariant an effect's subscriptions are exactly its listed deps. */
  lemma SubscriptionsAreDeps(b: Bucket, deps: map<EffectId, seq<Dep>>, e: EffectId)
    requires Consistent(b, deps) && e in deps
    ensures forall t, k :: e in Subscribers(b, t, k) <==> Dep(t, k) in deps[e]
  {
  }

  /** Every effect `trigger` selects is a registered effect. */
  lemma SelectedRegistered(b: Bucket, deps: map<EffectId, seq<Dep>>, t: ObjId, isArray: bool, key: Key,
                           kind: Option<TriggerType>, newVal: Value, active: Option<EffectId>)
    requires Consistent(b, deps) && t in b
    requires Select(b[t], isArray, key, kind, newVal, active).Normal?
    ensures Select(b[t], isArray, key, kind, newVal, active).value <= deps.Keys
  {
    forall k | k in b[t] ensures b[t][k] <= deps.Keys {
      assert forall e :: e in b[t][k] ==> e in Subscribers(b, t, k);
    }
  }

  /** The process-wide state of the engine. */
  class Store {
    var bucket: Bucket
    var deps: map<EffectId, seq<Dep>>
    var stack: seq<EffectId>
    var active: Option<EffectId>
    var shouldTrack: bool
    var options: map<EffectId, EffectOptions>
    var nextEffect: nat

    /**
      Every created effect has options and a deps list, the active effect is
      the top of the stack, and bucket and deps agree.
    */
    ghost predicate Valid()
      reads this
    {
      && deps.Keys == options.Keys
      && (forall e :: e in options ==> e < nextEffect)
      && (forall i :: 0 <= i < |stack| ==> stack[i] in options)
      && active == Top(stack)
      && Consistent(bucket, deps)
    }

    constructor ()
      ensures Valid()
      ensures bucket == map[] && deps == map[] && stack == [] && active == None
      ensures shouldTrack && options == map[]
    {
      bucket, deps, stack, active := map[], map[], [], None;
      shouldTrack, options, nextEffect := true, map[], 0;
    }

    /**
      The change `track(t, k)` makes: with an active effect and tracking on,
      the effect joins the subscribers of (t, k) and the set goes to the end
      of its deps; otherwise nothing.
    */
    twostate predicate Tracked(t: ObjId, k: Key)
      reads this
    {
      if old(active).Some? && old(shouldTrack) && old(active).value in old(deps) then
        && bucket == Subscribe(old(bucket), t, k, old(active).value)
        && deps == old(deps)[old(active).value := old(deps)[old(active).value] + [Dep(t, k)]]
      else bucket == old(bucket) && deps == old(deps)
    }

    /** `track(t, k)` */
    method Track(t: ObjId, k: Key)
      requires Valid()
      modifies this
      ensures stack == old(stack) && active == old(active) && shouldTrack == old(shouldTrack)
      ensures Valid()
      ensures Tracked(t, k)
      ensures options == old(options) && nextEffect == old(nextEffect)
    {
      if active.None? || !shouldTrack {
        return;
      }
      var e := active.value;
      TrackConsistent(bucket, deps, t, k, e);
      var m := if t in bucket then bucket[t] else map[];
      var s := if k in m then m[k] else {};
      var m': DepsMap := m[k := s + {e}];
      bucket := bucket[t := m'];
      deps := deps[e := deps[e] + [Dep(t, k)]];
    }

    /** `cleanup(effectFn)` */
    method Cleanup(e: EffectId)
      requires Valid() && e in options
      modifies this
      ensures Valid()
      ensures bucket == Unsubscribe(old(bucket), old(deps)[e], e)
      ensures deps == old(deps)[e := []]
      ensures forall t, k :: Subscribers(bucket, t, k) == Subscribers(old(bucket), t, k) - {e}
      ensures stack == old(stack) && active == old(active) && shouldTrack == old(shouldTrack)
      ensures options == old(options) && nextEffect == old(nextEffect)
    {
      CleanupConsistent(bucket, deps, e);
      bucket := DeleteFromAll(bucket, deps[e], e);
      deps := deps[e := []];
    }

    /**
      Running an effect: clean it up, make it active on top of the stack, run
      its function, pop the stack and make the previous top active again.
    */
    method Run(e: EffectId, body: seq<Step>)
      requires Valid() && e in options
      requires forall f :: f in NestedOrder(body) ==> f in options
      modifies this
      decreases body, 0
      ensures Valid()
      ensures stack == old(stack) && active == old(active) && shouldTrack == old(shouldTrack)
      ensures options == old(options) && nextEffect == old(nextEffect)
      ensures forall g :: g in old(deps) && g !in RunOrder(e, body) ==> deps[g] == old(deps)[g]
      ensures e !in NestedOrder(body) ==> deps[e] == if shouldTrack then Reads(body) else []
      ensures e !in NestedOrder(body) && shouldTrack ==>
        forall t, k :: e in Subscribers(bucket, t, k) <==> Dep(t, k) in Reads(body)
    {
      ghost var selfFree := e !in NestedOrder(body);
      ghost var st := shouldTrack;
      ghost var deps0 := deps;
      Enter(e);
      for i := 0 to |body|
        invariant Valid()
        invariant stack == old(stack) + [e] && active == Some(e) && shouldTrack == st
        invariant options == old(options) && nextEffect == old(nextEffect)
        invariant forall g :: g in deps0 && g != e && g !in NestedOrder(body[..i]) ==> deps[g] == deps0[g]
        invariant selfFree ==> deps[e] == if st then Reads(body[..i]) else []
      {
        OrderStep(body, i);
        Exec(e, body[i]);
      }
      assert body[..|body|] == body;
      SubscriptionsAreDeps(bucket, deps, e);
      Leave();
      assert stack == old(stack);
    }

    /** Entering `effectFn`: `cleanup`, then `activeEffect = effectFn` and the push. */
    method Enter(e: EffectId)
      requires Valid() && e in options
      modifies this
      ensures Valid()
      ensures stack == old(stack) + [e] && active == Some(e) && shouldTrack == old(shouldTrack)
      ensures deps == old(deps)[e := []]
      ensures forall t, k :: Subscribers(bucket, t, k) == Subscribers(old(bucket), t, k) - {e}
      ensures options == old(options) && nextEffect == old(nextEffect)
    {
      Cleanup(e);
      active := Some(e);
      stack := stack + [e];
    }

    /** Leaving `effectFn`: the pop, and the new top becomes active again. */
    method Leave()
      requires Valid() && |stack| > 0
      modifies this
      ensures Valid()
      ensures stack == old(stack)[..|old(stack)| - 1] && active == Top(stack)
      ensures bucket == old(bucket) && deps == old(deps) && shouldTrack == old(shouldTrack)
      ensures options == old(options) && nextEffect == old(nextEffect)
    {
      stack := stack[..|stack| - 1];
      active := Top(stack);
    }

    /** One statement of the active effect's function: a tracked read or a nested run. */
    method Exec(e: EffectId, s: Step)
      requires Valid() && active == Some(e)
      requires forall f :: f in StepRuns(s) ==> f in options
      modifies this
      decreases s, 1
      ensures Valid()
      ensures stack == old(stack) && active == old(active) && shouldTrack == old(shouldTrack)
      ensures options == old(options) && nextEffect == old(nextEffect)
      ensures forall g :: g in old(deps) && g != e && g !in StepRuns(s) ==> deps[g] == old(deps)[g]
      ensures e !in StepRuns(s) ==> deps[e] == old(deps)[e] + if shouldTrack then StepReads(s) else []
    {
      match s
      case Read(t, k) =>
        Track(t, k);
      case Nested(f, b) =>
        assert f in StepRuns(s);
        Run(f, b);
    }

    /** `effect(fn, options)`: a new effect, run at once unless lazy. */
    method Effect(opts: EffectOptions, body: seq<Step>) returns (e: EffectId)
      requires Valid()
      requires forall f :: f in NestedOrder(body) ==> f in options
      modifies this
      ensures Valid()
      ensures e !in old(options) && options == old(options)[e := opts]
      ensures opts.lazy ==> bucket == old(bucket) && deps == old(deps)[e := []]
      ensures !opts.lazy ==> deps[e] == if shouldTrack then Reads(body) else []
      ensures !opts.lazy && shouldTrack ==>
        forall t, k :: e in Subscribers(bucket, t, k) <==> Dep(t, k) in Reads(body)
      ensures forall g :: g in old(deps) && g !in NestedOrder(body) ==> deps[g] == old(deps)[g]
      ensures stack == old(stack) && active == old(active) && shouldTrack == old(shouldTrack)
    {
      e := Register(opts);
      if !opts.lazy {
        Run(e, body);
      }
    }

    /** `shouldTrack = b` */
    method SetShouldTrack(b: bool)
      requires Valid()
      modifies this
      ensures Valid() && shouldTrack == b
      ensures bucket == old(bucket) && deps == old(deps) && stack == old(stack) && active == old(active)
      ensures options == old(options) && nextEffect == old(nextEffect)
    {
      shouldTrack := b;
    }

    /** A new effect id with its options and an empty deps list. */
    method Register(opts: EffectOptions) returns (e: EffectId)
      requires Valid()
      modifies this
      ensures Valid()
      ensures e !in old(options) && options == old(options)[e := opts]
      ensures bucket == old(bucket) && deps == old(deps)[e := []]
      ensures stack == old(stack) && active == old(active) && shouldTrack == old(shouldTrack)
    {
      e := nextEffect;
      nextEffect := nextEffect + 1;
      options := options[e := opts];
      deps := deps[e := []];
    }

    /** `trigger(target, key, type, newVal)`: the effects it hands on and how. */
    method Trigger(t: ObjId, key: Key, kind: Option<TriggerType>, newVal: Value, isArray: bool)
      returns (r: Completion<seq<Dispatch>>)
      requires Valid()
      ensures r.Throw? <==> TriggerThrows(bucket, t, key, kind, newVal, isArray, active)
      ensures r.Throw? ==> r.error == TypeError
      ensures r.Normal? ==> TriggerPlan(bucket, t, key, kind, newVal, isArray, active, options, r.value)
    {
      if t !in bucket {
        return Normal([]);
      }
      var selected := Collect(bucket[t], isArray, key, kind, newVal, active);
      if selected.Throw? {
        return Throw(selected.error);
      }
      SelectedRegistered(bucket, deps, t, isArray, key, kind, newVal, active);
      var plan := Plan(selected.value, options);
      return Normal(plan);
    }
  }

  /** The selection loops of `trigger`: key, iteration, length and the length scan. */
  method Collect(m: DepsMap, isArray: bool, key: Key, kind: Option<TriggerType>,
                 newVal: Value, active: Option<EffectId>) returns (r: Completion<set<EffectId>>)
    ensures r == Select(m, isArray, key, kind, newVal, active)
  {
    var toRun := CollectKeyed(m, isArray, key, kind, active);
    if isArray && key == Length {
      var beyond := ScanLength(m, newVal, active);
      if beyond.Throw? {
        return Throw(beyond.error);
      }
      OthersUnion(Keyed(m, isArray, key, kind), Beyond(m, m.Keys, newVal), active);
      toRun := toRun + beyond.value;
    }
    return Normal(toRun);
  }

  /** The key, iteration and length subscribers, without the running effect. */
  method CollectKeyed(m: DepsMap, isArray: bool, key: Key, kind: Option<TriggerType>,
                      active: Option<EffectId>) returns (r: set<EffectId>)
    ensures r == Others(Keyed(m, isArray, key, kind), active)
  {
    ghost var iteration := if kind == Some(Add) || kind == Some(Delete) then Lookup(m, Iterate) else {};
    ghost var length := if kind == Some(Add) && isArray then Lookup(m, Length) else {};
    r := AddOthers({}, Lookup(m, key), active);
    if kind == Some(Add) || kind == Some(Delete) {
      r := AddOthers(r, Lookup(m, Iterate), active);
    }
    OthersUnion(Lookup(m, key), iteration, active);
    if kind == Some(Add) && isArray {
      r := AddOthers(r, Lookup(m, Length), active);
    }
    OthersUnion(Lookup(m, key) + iteration, length, active);
  }

  /**
    The scan over every key of an array target when its length is set: the
    subscribers of each index at or beyond the new length. `Number(key)` on a
    symbol key throws.
  */
  method ScanLength(m: DepsMap, newVal: Value, active: Option<EffectId>) returns (r: Completion<set<EffectId>>)
    ensures r.Throw? <==> HasSymbolKey(m)
    ensures r.Throw? ==> r.error == TypeError
    ensures r.Normal? ==> r.value == Others(Beyond(m, m.Keys, newVal), active)
  {
    var acc: set<EffectId> := {};
    var keys := m.Keys;
    while keys != {}
      invariant keys <= m.Keys
      invariant forall k :: k in m.Keys - keys ==> !IsSymbol(k)
      invariant acc == Others(Beyond(m, m.Keys - keys, newVal), active)
      decreases keys
    {
      var k :| k in keys;
      if IsSymbol(k) {
        return Throw(TypeError);
      }
      if AtOrBeyond(k, newVal) {
        acc := AddOthers(acc, m[k], active);
      }
      assert Beyond(m, m.Keys - (keys - {k}), newVal) ==
        Beyond(m, m.Keys - keys, newVal) + (if AtOrBeyond(k, newVal) then m[k] else {});
      keys := keys - {k};
    }
    assert m.Keys - keys == m.Keys;
    return Normal(acc);
  }

  /** `effectsToRun.forEach(...)`: one dispatch per selected effect. */
  method Plan(selected: set<EffectId>, options: map<EffectId, EffectOptions>) returns (plan: seq<Dispatch>)
    requires selected <= options.Keys
    ensures DispatchPlan(plan, selected, options)
  {
    plan := [];
    var rest := selected;
    while rest != {}
      invariant rest <= selected
      invariant DispatchPlan(plan, selected - rest, options)
      decreases rest
    {
      var e :| e in rest;
      var d := if options[e].hasScheduler then Schedule(e) else RunNow(e);
      assert Targets(plan + [d]) == Targets(plan) + {e};
      plan := plan + [d];
      rest := rest - {e};
    }
  }

  /** `for (i ...) effectFn.deps[i].delete(effectFn)`: every listed set exists. */
  method DeleteFromAll(b: Bucket, ds: seq<Dep>, e: EffectId) returns (r: Bucket)
    requires forall d :: d in ds ==> d.target in b && d.key in b[d.target]
    ensures r == Unsubscribe(b, ds, e)
  {
    r := b;
    for i := 0 to |ds|
      invariant r == Unsubscribe(b, ds[..i], e)
    {
      var d := ds[i];
      assert ds[..i + 1][..i] == ds[..i];
      var m: DepsMap := r[d.target][d.key := r[d.target][d.key] - {e}];
      r := r[d.target := m];
    }
    assert ds[..|ds|] == ds;
  }

  /** `effects.forEach(fn => { if (fn !== activeEffect) effectsToRun.add(fn) })` */
  method AddOthers(acc: set<EffectId>, effects: set<EffectId>, active: Option<EffectId>)
    returns (r: set<EffectId>)
    ensures r == acc + Others(effects, active)
  {
    r := acc;
    var rest := effects;
    while rest != {}
      invariant rest <= effects
      invariant r == acc + Others(effects - rest, active)
      decreases rest
    {
      var e :| e in rest;
      if Some(e) != active {
        r := r + {e};
      }
      rest := rest - {e};
    }
  }
}
