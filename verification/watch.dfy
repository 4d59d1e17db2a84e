/**
  `watch(source, cb, options)`: a lazy effect over the source whose
  scheduler runs a job. A job recomputes the value, runs the invalidation
  function registered last, calls the callback with the new and the old
  value, and makes the new value the old one. `traverse` reads every
  property reachable from an object source, each object once.

  The callback is caller code: a job is given the invalidation functions
  the callback passes to `onInvalidate`, in order. For a function source,
  the getter's reads and result are given too.
*/
module Watchers {
  import opened Values
  import opened Objects
  import opened Effects
  import opened Reactive

  /** An invalidation function passed to `onInvalidate`. */
  type FnId = nat

  /** What a watcher does that can be observed, in order. */
  datatype WatchEvent =
    | Recomputed(value: Value)
    | Invalidated(fn: FnId)
    | Called(newValue: Value, oldValue: Value)

  /** The closure state `cleanup` and `oldValue`. */
  datatype WatchState = WatchState(cleanup: Option<FnId>, oldValue: Value)

  /** One job: the value the getter produces, and what the callback registers with `onInvalidate`. */
  datatype JobInput = JobInput(value: Value, registers: seq<FnId>)

  /** A function source is the getter; any other source is read by `traverse`. */
  datatype Source = Function | Traversed(value: Value)

  /** The invalidation function in place after `fns` were registered, in order. */
  function Latest(c: Option<FnId>, fns: seq<FnId>): Option<FnId> {
    if fns == [] then c else Some(fns[|fns| - 1])
  }

  /** What one job does: recompute, invalidate (when a function is registered), call back. */
  function JobEvents(s: WatchState, v: Value): seq<WatchEvent> {
    [Recomputed(v)] + (if s.cleanup.Some? then [Invalidated(s.cleanup.value)] else []) + [Called(v, s.oldValue)]
  }

  /** The state after one job: the callback's registrations, and the new value as the old one. */
  function AfterJob(s: WatchState, input: JobInput): WatchState {
    WatchState(Latest(s.cleanup, input.registers), input.value)
  }

  /** The state after a sequence of jobs, and what they did. */
  function Jobs(s: WatchState, ins: seq<JobInput>): (WatchState, seq<WatchEvent>) {
    if ins == [] then (s, [])
    else
      var prev := Jobs(s, ins[..|ins| - 1]);
      (AfterJob(prev.0, ins[|ins| - 1]), prev.1 + JobEvents(prev.0, ins[|ins| - 1].value))
  }

  /** One more job extends the fold by one step. */
  lemma JobsSnoc(s: WatchState, ins: seq<JobInput>, input: JobInput)
    ensures Jobs(s, ins + [input]) == (AfterJob(Jobs(s, ins).0, input), Jobs(s, ins).1 + JobEvents(Jobs(s, ins).0, input.value))
  {
    assert (ins + [input])[..|ins|] == ins;
  }

  /** Every registration of every job, in order. */
  function AllRegisters(ins: seq<JobInput>): seq<FnId> {
    if ins == [] then [] else AllRegisters(ins[..|ins| - 1]) + ins[|ins| - 1].registers
  }

  /** The callback calls among the events. */
  function Calls(log: seq<WatchEvent>): seq<WatchEvent> {
    if log == [] then []
    else Calls(log[..|log| - 1]) + if log[|log| - 1].Called? then [log[|log| - 1]] else []
  }

  lemma {:induction false} LatestAppend(c: Option<FnId>, a: seq<FnId>, b: seq<FnId>)
    ensures Latest(c, a + b) == Latest(Latest(c, a), b)
  {
    if b != [] {
      assert (a + b)[|a + b| - 1] == b[|b| - 1];
    }
  }

  lemma {:induction false} CallsAppend(a: seq<WatchEvent>, b: seq<WatchEvent>)
    ensures Calls(a + b) == Calls(a) + Calls(b)
    decreases |b|
  {
    if b != [] {
      assert (a + b)[..|a + b| - 1] == a + b[..|b| - 1];
      CallsAppend(a, b[..|b| - 1]);
    } else {
      assert a + b == a;
    }
  }

  /**
    After any jobs, the registered invalidation function is the last one any
    callback registered (or the one before them all), and the old value is
    the last job's value.
  */
  lemma {:induction false} JobsState(s: WatchState, ins: seq<JobInput>)
    ensures Jobs(s, ins).0 ==
      WatchState(Latest(s.cleanup, AllRegisters(ins)), if ins == [] then s.oldValue else ins[|ins| - 1].value)
  {
    if ins != [] {
      var pre := ins[..|ins| - 1];
      JobsState(s, pre);
      LatestAppend(s.cleanup, AllRegisters(pre), ins[|ins| - 1].registers);
    }
  }

  /**
    The callback is called once per job, with that job's value as the new
    value and the previous job's value (or the initial old value) as the old.
  */
  lemma {:induction false} CallsChain(s: WatchState, ins: seq<JobInput>)
    ensures |Calls(Jobs(s, ins).1)| == |ins|
    ensures forall i :: 0 <= i < |ins| ==>
      Calls(Jobs(s, ins).1)[i] == Called(ins[i].value, PreviousValue(s.oldValue, ins, i))
  {
    if ins != [] {
      var pre := ins[..|ins| - 1];
      var m, log := Jobs(s, pre).0, Jobs(s, pre).1;
      CallsChain(s, pre);
      JobsState(s, pre);
      var v := ins[|ins| - 1].value;
      JobCalls(m, v);
      CallsAppend(log, JobEvents(m, v));
      var calls := Calls(Jobs(s, ins).1);
      assert calls == Calls(log) + [Called(v, m.oldValue)];
      forall i | 0 <= i < |ins|
        ensures calls[i] == Called(ins[i].value, PreviousValue(s.oldValue, ins, i))
      {
        if i < |pre| {
          assert calls[i] == Calls(log)[i];
          assert pre[i] == ins[i];
          assert PreviousValue(s.oldValue, pre, i) == PreviousValue(s.oldValue, ins, i);
        } else {
          assert m.oldValue == PreviousValue(s.oldValue, ins, i);
        }
      }
    }
  }

  /** The old value job `i` passes: the previous job's value, or the one before all jobs. */
  function PreviousValue(initial: Value, ins: seq<JobInput>, i: nat): Value
    requires i <= |ins|
  {
    if i == 0 then initial else ins[i - 1].value
  }

  /** A job calls the callback once, with its value and the old value. */
  lemma JobCalls(m: WatchState, v: Value)
    ensures Calls(JobEvents(m, v)) == [Called(v, m.oldValue)]
  {
    var mid := (if m.cleanup.Some? then [Invalidated(m.cleanup.value)] else []);
    CallsAppend([Recomputed(v)], mid);
    CallsAppend([Recomputed(v)] + mid, [Called(v, m.oldValue)]);
    assert [Recomputed(v)][..0] == [];
    assert [Called(v, m.oldValue)][..0] == [];
    if m.cleanup.Some? {
      assert mid[..0] == [];
    }
  }

  /**
    Job `i` runs the invalidation function registered last by the callbacks
    of the jobs before it, after recomputing and before the callback.
  */
  lemma JobInvalidates(s: WatchState, ins: seq<JobInput>, i: nat)
    requires i < |ins|
    ensures Jobs(s, ins[..i + 1]).1 == Jobs(s, ins[..i]).1 +
      [Recomputed(ins[i].value)]
      + (match Latest(s.cleanup, AllRegisters(ins[..i]))
         case Some(f) => [Invalidated(f)]
         case None => [])
      + [Called(ins[i].value, PreviousValue(s.oldValue, ins, i))]
  {
    var pre := ins[..i + 1];
    assert pre[..|pre| - 1] == ins[..i];
    JobsState(s, ins[..i]);
  }

  /**
    `cleanup` is never cleared: once an invalidation function is registered,
    every later job runs one, and with no new registration the same one again.
  */
  lemma StaleInvalidation(s: WatchState, ins: seq<JobInput>, f: FnId)
    requires s.cleanup == Some(f)
    ensures Jobs(s, ins).0.cleanup.Some?
    ensures AllRegisters(ins) == [] ==> Jobs(s, ins).0.cleanup == Some(f)
  {
    JobsState(s, ins);
  }

  /** The job's value: the getter's result, or `traverse(source)` (the source itself when it is an object). */
  function Produced(source: Source, result: Value): Value {
    match source
    case Function => result
    case Traversed(x) => if x.Obj? then x else Undefined
  }

  /**
    `visits` lists the objects newly seen, each once and none seen before,
    and `seen'` is `seen` with them.
  */
  ghost predicate VisitsOnce(seen: set<ObjId>, visits: seq<ObjId>, seen': set<ObjId>) {
    && seen' == seen + (set x | x in visits)
    && (forall i :: 0 <= i < |visits| ==> visits[i] !in seen)
    && (forall i, j :: 0 <= i < j < |visits| ==> visits[i] != visits[j])
  }

  /**
    `traverse(value, seen)`: nothing for a non-object or an object already
    seen; otherwise mark it seen and traverse the value of each key
    `for...in` visits. Traversal stops below `fuel` levels.
  */
  method Traverse(rt: Runtime, value: Value, seen: set<ObjId>, fuel: nat)
    returns (r: Value, seen': set<ObjId>, visits: seq<ObjId>)
    requires rt.Valid() && ValueBelow(value, |rt.heap.objects|)
    modifies rt, rt.heap, rt.store
    decreases fuel, 1
    ensures rt.Valid() && rt.Evolved()
    ensures !value.Obj? || value.id in seen ==> r == Undefined && seen' == seen && visits == [] && rt.Unchanged()
    ensures value.Obj? && value.id !in seen ==> r == value && |visits| > 0 && visits[0] == value.id
    ensures VisitsOnce(seen, visits, seen')
    ensures forall i :: 0 <= i < |visits| ==> visits[i] < |rt.heap.objects|
  {
    if !value.Obj? || value.id in seen {
      return Undefined, seen, [];
    }
    r := value;
    if fuel == 0 {
      return value, seen + {value.id}, [value.id];
    }
    var keys := rt.ForInKeys(value.id);
    seen', visits := TraverseKeys(rt, value.id, keys, seen, [value.id], seen + {value.id}, fuel);
  }

  /** The `for...in` loop of `traverse`: each key's value is traversed in turn, sharing `seen`. */
  method TraverseKeys(rt: Runtime, obj: ObjId, keys: set<Key>, ghost base: set<ObjId>,
                      visits0: seq<ObjId>, seen0: set<ObjId>, fuel: nat)
    returns (seen': set<ObjId>, visits: seq<ObjId>)
    requires rt.Valid() && obj < |rt.heap.objects| && fuel > 0
    requires VisitsOnce(base, visits0, seen0)
    requires forall i :: 0 <= i < |visits0| ==> visits0[i] < |rt.heap.objects|
    modifies rt, rt.heap, rt.store
    decreases fuel, 0
    ensures rt.Valid() && rt.Evolved()
    ensures VisitsOnce(base, visits, seen') && visits0 <= visits
    ensures forall i :: 0 <= i < |visits| ==> visits[i] < |rt.heap.objects|
  {
    seen', visits := seen0, visits0;
    var todo := keys;
    while todo != {}
      invariant rt.Valid() && rt.Evolved() && obj < |rt.heap.objects|
      invariant VisitsOnce(base, visits, seen') && visits0 <= visits
      invariant forall i :: 0 <= i < |visits| ==> visits[i] < |rt.heap.objects|
      decreases todo
    {
      var k :| k in todo;
      todo := todo - {k};
      var child := rt.GetProp(obj, k);
      var _, s2, v2 := Traverse(rt, child, seen', fuel - 1);
      VisitsJoin(base, visits, seen', v2, s2);
      seen', visits := s2, visits + v2;
    }
  }

  /** Two rounds of fresh visits make one. */
  lemma VisitsJoin(seen: set<ObjId>, a: seq<ObjId>, mid: set<ObjId>, b: seq<ObjId>, seen': set<ObjId>)
    requires VisitsOnce(seen, a, mid) && VisitsOnce(mid, b, seen')
    ensures VisitsOnce(seen, a + b, seen')
  {
    assert (set x | x in a + b) == (set x | x in a) + (set x | x in b);
    forall i, j | 0 <= i < j < |a + b| ensures (a + b)[i] != (a + b)[j] {
      if i < |a| && j >= |a| {
        assert (a + b)[i] in mid;
      }
    }
  }

  /** The closure state of one `watch` call. */
  class Watcher {
    const rt: Runtime
    const effect: EffectId
    const source: Source
    /** `options.flush === 'post'` */
    const post: bool
    /** How deep `traverse` goes. */
    const depth: nat
    var cleanup: Option<FnId>
    var oldValue: Value
    /** Jobs deferred to a later microtask. */
    var pending: nat
    /** Everything the watcher did, in order. */
    var log: seq<WatchEvent>
    /** The state before the first job, what came before it, and the jobs so far. */
    ghost var start: WatchState
    ghost var prefix: seq<WatchEvent>
    ghost var jobs: seq<JobInput>

    ghost predicate Valid()
      reads this, rt, rt.heap, rt.store
    {
      && rt.Valid()
      && effect in rt.store.options && rt.store.options[effect] == EffectOptions(true, true)
      && (source.Traversed? ==> ValueBelow(source.value, |rt.heap.objects|))
      && Replayed()
    }

    /** The closure state and the log are those of the jobs so far, from the state before the first. */
    ghost predicate Replayed()
      reads this
    {
      && WatchState(cleanup, oldValue) == Jobs(start, jobs).0
      && log == prefix + Jobs(start, jobs).1
    }

    /** The closure state of `watch` before its first step: a lazy effect with a scheduler, not run yet. */
    constructor (rt: Runtime, source: Source, post: bool, depth: nat)
      requires rt.Valid()
      requires source.Traversed? ==> ValueBelow(source.value, |rt.heap.objects|)
      modifies rt.store
      ensures Valid() && this.rt == rt && this.source == source && this.post == post && this.depth == depth
      ensures effect !in old(rt.store.options)
      ensures rt.store.bucket == old(rt.store.bucket) && rt.store.deps == old(rt.store.deps)[effect := []]
      ensures cleanup == None && oldValue == Undefined && pending == 0 && log == []
      ensures start == WatchState(None, Undefined) && prefix == [] && jobs == []
    {
      this.rt, this.source, this.post, this.depth := rt, source, post, depth;
      var e := rt.store.Register(EffectOptions(true, true));
      effect := e;
      cleanup, oldValue, pending, log := None, Undefined, 0, [];
      start, prefix, jobs := WatchState(None, Undefined), [], [];
    }

    /** Without `immediate`: `oldValue = effectFn()`, and no call. */
    method Capture(body: seq<Step>, result: Value)
      requires Valid() && jobs == [] && log == [] && cleanup == None
      requires forall f :: f in NestedOrder(body) ==> f in rt.store.options
      modifies this, rt, rt.heap, rt.store
      ensures Valid() && rt.Evolved()
      ensures log == [Recomputed(Produced(source, result))] && oldValue == Produced(source, result)
      ensures cleanup == None && jobs == [] && pending == old(pending)
    {
      var v := Recompute(body, result);
      oldValue, log := v, [Recomputed(v)];
      start, prefix := WatchState(None, v), log;
    }

    /**
      `effectFn()`: run the watcher's effect over the getter, or over
      `traverse(source)`, and give its value.
    */
    method Recompute(body: seq<Step>, result: Value) returns (v: Value)
      requires rt.Valid() && effect in rt.store.options
      requires source.Traversed? ==> ValueBelow(source.value, |rt.heap.objects|)
      requires forall f :: f in NestedOrder(body) ==> f in rt.store.options
      modifies rt, rt.heap, rt.store
      ensures rt.Valid() && rt.Evolved()
      ensures v == Produced(source, result)
      ensures source.Function? && effect !in NestedOrder(body) ==>
        rt.store.deps[effect] == if rt.store.shouldTrack then Reads(body) else []
    {
      match source
      case Function =>
        rt.store.Run(effect, body);
        v := result;
      case Traversed(x) =>
        rt.store.Enter(effect);
        var seen, visits;
        v, seen, visits := Traverse(rt, x, {}, depth);
        rt.store.Leave();
    }

    /**
      `job`: recompute, run the invalidation function registered last, call
      back with (new, old) and whatever the callback registers, then make the
      new value the old one. `cleanup` is not cleared.
    */
    method Job(body: seq<Step>, result: Value, registers: seq<FnId>)
      requires Valid()
      requires forall f :: f in NestedOrder(body) ==> f in rt.store.options
      modifies this, rt, rt.heap, rt.store
      ensures Valid() && rt.Evolved()
      ensures log == old(log) + JobEvents(WatchState(old(cleanup), old(oldValue)), Produced(source, result))
      ensures cleanup == Latest(old(cleanup), registers) && oldValue == Produced(source, result)
      ensures jobs == old(jobs) + [JobInput(Produced(source, result), registers)]
      ensures pending == old(pending)
    {
      var newValue := Recompute(body, result);
      Record(newValue, registers);
    }

    /**
      The rest of `job` once the value is recomputed: run the invalidation
      function, call back, take the callback's registrations, shift new to old.
    */
    method Record(newValue: Value, registers: seq<FnId>)
      requires Replayed()
      modifies this
      ensures Replayed()
      ensures log == old(log) + JobEvents(WatchState(old(cleanup), old(oldValue)), newValue)
      ensures cleanup == Latest(old(cleanup), registers) && oldValue == newValue
      ensures jobs == old(jobs) + [JobInput(newValue, registers)]
      ensures pending == old(pending)
    {
      ghost var input := JobInput(newValue, registers);
      ghost var before := Jobs(start, jobs);
      ghost var events := JobEvents(before.0, newValue);
      JobsSnoc(start, jobs, input);
      var l := log + [Recomputed(newValue)];
      if cleanup.Some? {
        l := l + [Invalidated(cleanup.value)];
      }
      l := l + [Called(newValue, oldValue)];
      assert l == log + events;
      assert l == prefix + (before.1 + events);
      log, cleanup, oldValue := l, Latest(cleanup, registers), newValue;
      jobs := jobs + [input];
    }

    /** The scheduler: with `flush: 'post'` the job is deferred, otherwise it runs now. */
    method Schedule(body: seq<Step>, result: Value, registers: seq<FnId>)
      requires Valid()
      requires forall f :: f in NestedOrder(body) ==> f in rt.store.options
      modifies this, rt, rt.heap, rt.store
      ensures Valid() && rt.Evolved()
      ensures post ==> pending == old(pending) + 1 && log == old(log) && jobs == old(jobs) && rt.Unchanged()
      ensures !post ==>
        && log == old(log) + JobEvents(WatchState(old(cleanup), old(oldValue)), Produced(source, result))
        && jobs == old(jobs) + [JobInput(Produced(source, result), registers)]
        && pending == old(pending)
    {
      if post {
        pending := pending + 1;
      } else {
        Job(body, result, registers);
      }
    }

    /** A deferred job, run when its microtask comes. */
    method Flush(body: seq<Step>, result: Value, registers: seq<FnId>)
      requires Valid() && pending > 0
      requires forall f :: f in NestedOrder(body) ==> f in rt.store.options
      modifies this, rt, rt.heap, rt.store
      ensures Valid() && rt.Evolved()
      ensures pending == old(pending) - 1
      ensures log == old(log) + JobEvents(WatchState(old(cleanup), old(oldValue)), Produced(source, result))
      ensures jobs == old(jobs) + [JobInput(Produced(source, result), registers)]
    {
      pending := pending - 1;
      Job(body, result, registers);
    }
  }

  /**
    `watch(source, cb, options)`: with `immediate` a first job at once (old
    value undefined, one call), otherwise one run of the effect whose value
    becomes the old value, and no call.
  */
  method Watch(rt: Runtime, source: Source, post: bool, immediate: bool, depth: nat,
               body: seq<Step>, result: Value, registers: seq<FnId>) returns (w: Watcher)
    requires rt.Valid()
    requires source.Traversed? ==> ValueBelow(source.value, |rt.heap.objects|)
    requires forall f :: f in NestedOrder(body) ==> f in rt.store.options
    modifies rt, rt.heap, rt.store
    ensures w.Valid() && w.rt == rt && w.source == source && w.post == post && w.pending == 0
    ensures fresh(w) && w.effect !in old(rt.store.options)
    ensures immediate ==>
      && w.log == [Recomputed(Produced(source, result)), Called(Produced(source, result), Undefined)]
      && w.cleanup == Latest(None, registers) && w.oldValue == Produced(source, result)
    ensures !immediate ==>
      && w.log == [Recomputed(Produced(source, result))] && w.cleanup == None
      && w.oldValue == Produced(source, result)
  {
    w := new Watcher(rt, source, post, depth);
    if immediate {
      w.Job(body, result, registers);
    } else {
      w.Capture(body, result);
    }
  }
}
