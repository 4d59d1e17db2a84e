# A reactivity engine in the style of Vue 3, modelled in Dafny

The repository implements fine-grained reactivity:
- **Dependency store.** A global store records which effects read which `(object, key)` pairs. The `bucket` maps target → key → set of effects, and each effect keeps a `deps` list.
- **Effect runner.** It cleans up an effect's old subscriptions, pushes the effect on an active-effect stack and runs its function. Reads made during the run subscribe the running effect.
- **`trigger`.** It selects the subscribers a write concerns and hands each one to its scheduler, or runs it directly.
- **Reactive wrappers.** They are `Proxy` objects with `get`/`set`/`ownKeys`/`deleteProperty` traps. They come in four variants (deep or shallow, writable or readonly), each memoised per raw object.
- **Built on top:** `computed` (a dirty/clean cache behind a lazy effect), `watch` (a job that recomputes, invalidates, calls back and shifts new to old), refs (`ref`, `toRef`, `toRefs`, `proxyRefs`), and `toProxy`, a minimal track-on-get / trigger-on-set wrapper.

## How the model is built

Each source file has its own module:
- `effect.dfy` → `Effects`
- `reactive.dfy` → `Reactive`
- `computed.dfy` → `ComputedValues`
- `watch.dfy` → `Watchers`
- `ref.dfy` → `Refs`
- `proxy.dfy` → `Tracking`

Two base modules sit beneath them:
- `Values` holds keys, values, `===`, `Number(...)`, truthiness, and thrown errors as a `Completion`.
- `Objects` holds the object heap and the ordinary `[[Get]]`/`[[Set]]`/`[[Delete]]` rules, including array `length`.

**Objects and state**
- All JavaScript objects live in a `Heap` and are named by index. An object is one of:
  - an ordinary object or array;
  - a reactive wrapper of another object;
  - a `toRef` carrier;
  - a host object whose `value` a model class serves.
- The mutable global state of `effect.ts` is the class `Effects.Store`: `bucket`, `deps`, the effect stack, `activeEffect`, `shouldTrack` and the effect options.
- `Reactive.Runtime` holds the heap, the store and the four wrapper caches. The proxy traps are its methods.

**What the model does not execute**
- An effect's function is abstract: a sequence of `Read(target, key)` and `Nested(effect, body)` steps.
- `trigger` returns its dispatch list (`Schedule(e)` or `RunNow(e)`, one per selected effect). It does not re-enter effects itself.
- The closures of `computed` and `watch` are classes whose fields are the closure variables.
- The getter's result and the callback's `onInvalidate` registrations are parameters.

The central invariant of the store is that an effect is in the subscriber set of `(t, k)` exactly when `Dep(t, k)` is in its `deps`. Every store operation preserves it.

**Behaviour of the code that the model keeps as written:**
- **The search retry.** An instrumented search retries on the raw array only when its result is `false`. So only `includes` retries, and a -1 from `indexOf` or `lastIndexOf` is returned as it is (see Findings).
- **`shouldTrack`.** A mutator sets the flag to `false` and afterwards to `true`, not back to its earlier value. `CallMutator` does the same, and it leaves tracking off when the method throws.
- **The effect stack.** The effect runner has no `try`/`finally`, so an effect that throws leaves itself on the stack. The model claims nothing for an abnormal exit.
- **The watch getter.** For a source that is not a function, the getter returns `traverse(source)`, which is the source object itself. So that object becomes the new and the old value (`Watchers.Produced`).
- **Keys.** A string key has one canonical form: `Idx(i)` for the decimal digits of `i`, `Length` for "length", `Name(s)` otherwise. `Number(...)` converts a name such as "-1", "01" or "" to a number, so those names take part in the array change kind and in the length scan.

## Model

| member | source | states |
|---|---|---|
| Values.StrictEqualsIsEqualityExceptNaN | src/reactive/reactive.ts:54-58 | `===` is equality on every value except NaN, which is not equal to itself |
| Values.KeyToNumber | src/reactive/reactive.ts:44 | `Number(key)` throws TypeError exactly for symbols; an index gives its own number |
| Values.StringToNumber | src/reactive/effect.ts:141 | `Number(s)` of a string of decimal digits is the number they denote (the empty string, signed digits and NaN for other forms are in its definition) |
| Values.KeyOf | src/reactive/reactive.ts:44 | every string names exactly one key: a canonical decimal is an index, "length" is `length`, and a name keeps its string |
| Values.KeyNumberIsStringNumber | src/reactive/reactive.ts:44 | `Number` of a key is `Number` of the string the key stands for |
| Values.NumericNames | src/reactive/effect.ts:141 | "-1", "" and "01" are names whose numbers are -1, 0 and 1; "7" is the index 7; "x" is NaN |
| Objects.RawGet | src/reactive/reactive.ts:21 | an absent own property reads as undefined |
| Objects.RawSet | src/reactive/reactive.ts:49 | `Reflect.set` on an ordinary object reports false and changes nothing exactly for a non-writable key; it throws RangeError exactly for an invalid array length (a numeric string such as "1" is a valid one); the object stays ordinary with the same non-writable keys |
| Objects.RawDelete | src/reactive/reactive.ts:76 | `Reflect.deleteProperty` fails exactly for a present non-configurable key (an array's `length` included); on success exactly that key is gone |
| Objects.RawEnumerableKeys | src/reactive/ref.ts:37 | `for...in` visits exactly the enumerable own keys that are not symbols (never an array's `length`) |
| Objects.SetThenGet | src/reactive/reactive.ts:49 | after a successful write the key reads back the written value, and every other key except `length` reads as before |
| Objects.LengthWrite | src/reactive/effect.ts:139-149 | writing a valid `length` leaves exactly that length and no index at or beyond it, which are the indices whose subscribers `trigger`'s length scan selects |
| Effects.Subscribe | src/reactive/effect.ts:83-95 | the subscribers of `(t, k)` gain the effect, and every other subscriber set is unchanged |
| Effects.Unsubscribe | src/reactive/effect.ts:162-166 | cleanup removes no target and no key entry (sets are emptied in place) |
| Effects.UnsubscribeSpec | src/reactive/effect.ts:162-166 | cleanup removes exactly this effect, and only from the sets listed in its deps |
| Effects.TriggerSelects | src/reactive/effect.ts:99-149 | an effect is handed on iff it is not the running one and it subscribed to the key, to the iteration key on ADD/DELETE, to `length` on an array ADD, or, when an array's `length` is set, to a key whose `Number` is at or beyond the new length (indices and numeric names alike) |
| Effects.LengthScanReachesNumericNames | src/reactive/effect.ts:141 | the length scan reaches the name "01" when the length becomes 0, and an index when the new length is the string "2"; it does not reach "-1" below the length, a non-numeric name or `length` itself |
| Effects.TrackConsistent | src/reactive/effect.ts:95-96 | `track` keeps the bucket/deps invariant |
| Effects.CleanupConsistent | src/reactive/effect.ts:162-167 | cleanup keeps the invariant; afterwards the effect is in no subscriber set, and every other effect keeps its subscriptions |
| Effects.SubscriptionsAreDeps | src/reactive/effect.ts:95-96 | under the invariant, an effect subscribes to `(t, k)` iff its deps list that set |
| Effects.SelectedRegistered | src/reactive/effect.ts:151-159 | every effect `trigger` selects is a registered effect with options, so its scheduler can be looked up |
| Effects.Store.constructor | src/reactive/effect.ts:53-55 | empty bucket and stack, no active effect, tracking on |
| Effects.Store.Track | src/reactive/effect.ts:78-97 | without an active effect or with tracking off, nothing changes; otherwise the active effect joins `(t, k)`, that dependency goes to the end of its deps, nothing else changes, and the invariant holds |
| Effects.Store.Cleanup | src/reactive/effect.ts:162-167 | the effect leaves every subscriber set, its deps become empty, and all else is unchanged |
| Effects.Store.Run | src/reactive/effect.ts:58-66 | the stack, the active effect and the flag are as before the run; effects not started by the run keep their deps; unless the effect runs itself nested, its deps are exactly this run's reads (empty with tracking off), and it subscribes to exactly those keys (branch switching) |
| Effects.Store.Enter | src/reactive/effect.ts:59-61 | cleanup, then the effect is pushed and active |
| Effects.Store.Leave | src/reactive/effect.ts:63-64 | the pop, and the new top of the stack becomes active |
| Effects.Store.Exec | src/reactive/effect.ts:62 | a read by the running effect appends its dependency to that effect's deps; a nested run leaves the outer effect's deps and the stack as they were |
| Effects.Store.Effect | src/reactive/effect.ts:57-76 | a new effect with its options; a lazy one is not run and has no deps; otherwise it runs once, and its deps are its reads |
| Effects.Store.SetShouldTrack | src/reactive/effect.ts:44-46 | the flag is set, and nothing else changes |
| Effects.Store.Register | src/reactive/effect.ts:68-69 | a fresh effect id, its options recorded, empty deps, and nothing else changes |
| Effects.Store.Trigger | src/reactive/effect.ts:99-160 | no dispatch when the target has no map; a TypeError exactly when the length scan meets a symbol key; otherwise one dispatch per selected effect |
| Effects.Collect | src/reactive/effect.ts:105-149 | the selection loops compute the union of key, iteration, length and length-scan subscribers, minus the running effect |
| Effects.CollectKeyed | src/reactive/effect.ts:107-137 | the subscribers of the key, of the iteration key on ADD/DELETE and of `length` on an array ADD, minus the running effect |
| Effects.ScanLength | src/reactive/effect.ts:139-149 | the subscribers of every key whose `Number` is at or beyond the new length; throws exactly when some key is a symbol |
| Effects.Plan | src/reactive/effect.ts:151-159 | exactly one dispatch per selected effect, no effect twice, and to the scheduler iff the effect has one |
| Effects.DeleteFromAll | src/reactive/effect.ts:163-165 | the cleanup loop computes the cleaned bucket |
| Effects.AddOthers | src/reactive/effect.ts:109-114 | adds every effect of the set except the running one |
| Reactive.HasChanged | src/reactive/reactive.ts:54-58 | the change test is plain inequality of values: NaN over NaN is no change, and NaN over a number is a change |
| Reactive.ChangeKind | src/reactive/reactive.ts:42-47 | on an array: SET iff `Number(key)` is below `Number(length)` (an index, or a numeric name such as "-1"), ADD for `length` and for names that are no number, TypeError for a symbol; on an object: SET iff the key is an own property |
| Reactive.NumericNamesChangeKind | src/reactive/reactive.ts:44 | on an array of length 3, writing "-1" or "01" is a SET, and writing "x" or "5" an ADD |
| Reactive.SearchResult | src/reactive/effect.ts:26-31 | the search through the wrapper is replaced only when it is `false`: a -1 stays -1, and a `false` becomes the raw array's hit |
| Reactive.IncludesFindsEither | src/reactive/effect.ts:26-31 | `includes` on a wrapped array reports a hit iff the search through the wrapper or the search on the raw array finds one |
| Reactive.IndexSearchKeepsMiss | src/reactive/effect.ts:29-31 | as written: a -1 from `indexOf`/`lastIndexOf` through the wrapper is returned even when the raw array has the element |
| Reactive.IntendedSearchResult | src/reactive/effect.ts:26-33 | corrected search: the wrapper's result unless it is a miss (`false` or -1), otherwise the raw array's |
| Reactive.IntendedIndexSearchFinds | src/reactive/effect.ts:26-33 | with the correction, an index found only on the raw array is reported; `includes` behaves as written |
| Reactive.Runtime.constructor | src/reactive/reactive.ts:85-139 | the four wrapper caches start empty |
| Reactive.Runtime.Wrap | src/reactive/reactive.ts:85-97 | a factory returns the cached wrapper if there is one, and the heap is unchanged; otherwise it makes one new wrapper with its flags and caches it; only that variant's cache changes |
| Reactive.Runtime.NewWrapper | src/reactive/reactive.ts:93-94 | `createReactive` adds exactly one wrapper object, and the variant's cache maps the object to it |
| Reactive.Runtime.Remember | src/reactive/reactive.ts:94 | only the cache of the given variant gets the entry |
| Reactive.Runtime.Reactive | src/reactive/reactive.ts:85-97 | repeated calls with one object give the identical deep writable wrapper; the other caches are untouched |
| Reactive.Runtime.ShallowReactive | src/reactive/reactive.ts:99-111 | the same for the shallow writable variant, with its own cache |
| Reactive.Runtime.Readonly | src/reactive/reactive.ts:113-125 | the same for the deep readonly variant, with its own cache |
| Reactive.Runtime.ShallowReadonly | src/reactive/reactive.ts:127-139 | the same for the shallow readonly variant, with its own cache |
| Reactive.Runtime.GetProp | src/reactive/reactive.ts:21 | `Reflect.get`: an ordinary object answers from its own properties with nothing changed; a wrapper runs its get trap; a carrier reads its source property, through the source's get trap when the source is a wrapper |
| Reactive.Runtime.ReactiveGet | src/reactive/reactive.ts:8-31 | `raw` gives the target untracked; an instrumented method on an array gives the replacement; otherwise the read tracks `(target, key)` only for a writable wrapper and a non-symbol key; a deep wrapper returns an object result wrapped with its own readonly flag, and a shallow one returns it as is |
| Reactive.Runtime.TrackedGet | src/reactive/reactive.ts:17-28 | the track decision and the value read, as above |
| Reactive.Runtime.ReadAndWrap | src/reactive/reactive.ts:21-30 | the raw value, or the deep wrapper's wrap of an object value through the `reactive`/`readonly` cache; no tracking |
| Reactive.Runtime.SetProp | src/reactive/reactive.ts:49 | `Reflect.set`: an ordinary object takes the write and nothing else changes; a wrapper runs its set trap; a carrier's `value` setter assigns its source property (through the source's set trap, with its trigger, when the source is a writable wrapper; nothing happens when it is readonly), and a refused assignment throws |
| Reactive.Strict | src/reactive/ref.ts:24 | a strict-mode assignment succeeds exactly when the write reports true, keeping its dispatches; a refusal throws TypeError |
| Reactive.StrictOutcome | src/reactive/ref.ts:24 | a strict assignment through the set trap has the trap's outcome, except that a refused write throws TypeError after its trigger |
| Reactive.Runtime.ReactiveSet | src/reactive/reactive.ts:32-63 | a readonly wrapper changes nothing, triggers nothing and reports true; a writable one classifies SET/ADD before writing, writes, and triggers with that kind only when `receiver.raw` is the target and the value changed (NaN-aware); the trap reports `Reflect.set`'s result |
| Reactive.Runtime.TriggeredSet | src/reactive/reactive.ts:38-62 | the writable set trap, as above |
| Reactive.Runtime.WriteAndTrigger | src/reactive/reactive.ts:49-62 | the write after the change kind is known: a kind that throws writes nothing; a write that throws triggers nothing; a refused write still triggers when the receiver's `raw` is the target and the value differs |
| Reactive.Runtime.AfterWrite | src/reactive/reactive.ts:51-61 | `trigger` runs iff the receiver's `raw` is the target and the value changed; its dispatches follow the write's own |
| Reactive.Runtime.ReadBeforeWrite | src/reactive/reactive.ts:38-47 | the old value and the change kind are read from the target before the write, with nothing changed |
| Reactive.Runtime.OwnKeysOf | src/reactive/reactive.ts:67 | `Reflect.ownKeys`: an ordinary object's keys, untracked; a wrapper's keys go through its ownKeys trap |
| Reactive.Runtime.ReactiveOwnKeys | src/reactive/reactive.ts:64-68 | enumeration tracks `length` on an array and the iteration key otherwise, then gives the target's own keys |
| Reactive.Runtime.ForInKeys | src/reactive/ref.ts:37-39 | `for...in` over an object or a wrapper visits its enumerable non-symbol keys, and through a wrapper tracks as enumeration does |
| Reactive.Runtime.DeleteProp | src/reactive/reactive.ts:76 | `Reflect.deleteProperty` on an ordinary object removes the key (or reports false) and nothing else changes; a readonly wrapper changes nothing and reports true; a writable wrapper runs its trap |
| Reactive.Runtime.ReactiveDelete | src/reactive/reactive.ts:69-81 | a readonly wrapper changes nothing and reports true; a writable one deletes and triggers DELETE iff the key was an own property and the delete succeeded |
| Reactive.Runtime.TriggeredDelete | src/reactive/reactive.ts:75-80 | the writable delete trap, as above |
| Reactive.Runtime.Perform | src/reactive/effect.ts:45 | one access of an array mutator through the wrapper, with tracking off: it subscribes nothing; a write is the set trap's write with its trigger, and a delete the deleteProperty trap's, with a refusal throwing TypeError; a readonly wrapper changes nothing |
| Reactive.Runtime.CallMutator | src/reactive/effect.ts:43-48 | a mutator's accesses subscribe nothing; after it returns, tracking is on, whatever it was before; after a throw, tracking stays off |
| Refs.RefObject | src/reactive/ref.ts:6-13 | the ref object holds the value under `value`; `__v_isRef` is true, cannot be written or deleted and is not enumerated |
| Refs.RefValueWrite | src/reactive/ref.ts:5-15 | assigning `value` of a ref object gives the ref object of the new value |
| Refs.Ref | src/reactive/ref.ts:5-16 | `ref(v)` makes one new ref object and its cached deep writable wrapper |
| Refs.ToRef | src/reactive/ref.ts:18-33 | `toRef` makes one new carrier onto `(obj, key)` and tracks or triggers nothing |
| Refs.ToRefs | src/reactive/ref.ts:35-41 | the result has exactly one entry per key `for...in` visits on the object, and each entry is a carrier onto that key; through a wrapper, the iteration key is tracked |
| Refs.FillRefs | src/reactive/ref.ts:37-39 | the loop leaves one carrier per key, under exactly the given keys |
| Refs.IsRef | src/reactive/ref.ts:53 | `res.__v_isRef` throws TypeError exactly on undefined and null; it is false for other primitives; otherwise it is the property read (tracked through a writable wrapper) |
| Refs.ReadIsRef | src/reactive/ref.ts:48 | `__v_isRef` of an object: the flag of an ordinary object, true for a carrier, and read through a wrapper |
| Refs.RefsProxy.constructor | src/reactive/ref.ts:43-44 | the handler over the given target |
| Refs.RefsProxy.Get | src/reactive/ref.ts:45-49 | a read returns the property's `.value` when the property is a ref, and the property itself otherwise; a carrier onto a wrapper reads through the wrapper's get trap, which subscribes the running effect; undefined and null throw TypeError |
| Refs.RefsProxy.Unwrap | src/reactive/ref.ts:48 | the unwrap decision on a read value, as above |
| Refs.RefsProxy.UnwrapObject | src/reactive/ref.ts:48 | for an object value: its `value` when its `__v_isRef` holds (a ref object, a carrier, or a ref wrapper read with tracking), the object itself otherwise |
| Refs.RefsProxy.ReadValue | src/reactive/ref.ts:48 | `.value` of a ref object, a carrier (its source property, read through the source's get trap when the source is a wrapper) or a ref wrapper (a tracked read that subscribes the running effect) |
| Refs.RefsProxy.Set | src/reactive/ref.ts:50-59 | a write to a ref-valued property assigns the ref's `value` and leaves the ref in place (for a carrier onto a writable wrapper, through that wrapper's set trap, which triggers its subscribers); other properties are written into the target; undefined and null throw TypeError |
| Refs.RefsProxy.ReadTarget | src/reactive/ref.ts:51 | the property is read from an ordinary target with nothing changed |
| Refs.RefsProxy.WriteVia | src/reactive/ref.ts:51-58 | the set trap once the property value is known, as above |
| Refs.RefsProxy.WriteViaObject | src/reactive/ref.ts:53-58 | an object property value: through its `value` when its `__v_isRef` holds, into the target otherwise |
| Refs.RefsProxy.IsRefObject | src/reactive/ref.ts:53 | the flag test changes nothing, except that a read through a wrapper may subscribe the running effect |
| Refs.RefsProxy.AssignValue | src/reactive/ref.ts:54-55 | `res.value = value` writes the ref object, the carrier's source (through the source's set trap with its trigger when the source is a writable wrapper; nothing when it is readonly) or through the ref wrapper (which triggers its subscribers); a refused assignment throws |
| Refs.RefsProxy.WriteTarget | src/reactive/ref.ts:58 | `Reflect.set(target, p, value, receiver)`: the ordinary write, triggering nothing |
| Tracking.ProxyWriteSelects | src/reactive/proxy.ts:13 | a write through `toProxy` (no change kind) hands on exactly the effects whose last run read that key, other than the running one: a self-writing effect is not re-run, and an effect that stopped reading the key is not re-run |
| Tracking.TrackingProxy.constructor | src/reactive/proxy.ts:3-4 | the wrapper over the given target |
| Tracking.TrackingProxy.Get | src/reactive/proxy.ts:5-9 | `track(target, p)` for every key, symbols included, then the target's own value, with nothing else changed |
| Tracking.TrackingProxy.Set | src/reactive/proxy.ts:10-15 | the target takes the write; `trigger(target, p)` runs with no change kind and no new value, even when the value is unchanged; a refused write throws |
| ComputedValues.RunsAndTriggersAlternate | src/reactive/computed.ts:9-22 | getter runs and invalidation triggers alternate, starting with a run: one more run than triggers when clean, equal counts when dirty |
| ComputedValues.RunsOnlyOnReads | src/reactive/computed.ts:9-22 | the getter runs only on reads, and `value` is triggered only on invalidations |
| ComputedValues.CachedIsLastRun | src/reactive/computed.ts:19-24 | when clean, the cached value is the result of the most recent getter run |
| ComputedValues.ReadCaches | src/reactive/computed.ts:19-24 | every read leaves the cache clean; the first read runs the getter; a second read with no invalidation between runs nothing and changes nothing |
| ComputedValues.InvalidateOnce | src/reactive/computed.ts:9-14 | invalidation never runs the getter and marks dirty; a second invalidation while dirty changes nothing and triggers nothing |
| ComputedValues.Computed.constructor | src/reactive/computed.ts:4-15 | a lazy effect with a scheduler, not run; dirty; no subscriptions added |
| ComputedValues.Computed.Value | src/reactive/computed.ts:17-26 | a dirty read runs the effect and returns the getter's result; a clean read returns the cached value without running; either way the cache ends clean and the reader subscribes to `(obj, 'value')` |
| ComputedValues.Computed.Refresh | src/reactive/computed.ts:19-22 | the effect runs iff the cache was dirty, and its deps are then the getter's reads |
| ComputedValues.Computed.Schedule | src/reactive/computed.ts:9-14 | when clean: marks dirty and hands on the readers of `value`; when dirty: nothing; the cached value is kept |
| Watchers.JobsState | src/reactive/watch.ts:31-38 | after any jobs, the invalidation function in place is the last one registered, and the old value is the last job's value |
| Watchers.CallsChain | src/reactive/watch.ts:31-38 | the callback is called once per job, with that job's value as new and the previous job's value (or the initial old value) as old |
| Watchers.JobCalls | src/reactive/watch.ts:36 | one job makes exactly one callback call |
| Watchers.JobInvalidates | src/reactive/watch.ts:31-38 | job i recomputes, then runs the invalidation function registered last before it, then calls back |
| Watchers.StaleInvalidation | src/reactive/watch.ts:33-35 | `cleanup` is never cleared: once registered, every later job runs an invalidation function, the same one if nothing new is registered |
| Watchers.Traverse | src/reactive/watch.ts:58-70 | nothing for a non-object or an already-seen object; otherwise the object is returned and visited first; no object is visited twice or is one seen before |
| Watchers.TraverseKeys | src/reactive/watch.ts:65-67 | the `for...in` loop extends the visits, still each object at most once |
| Watchers.Watcher.constructor | src/reactive/watch.ts:40-49 | the watch effect is lazy with a scheduler and not run; no cleanup, old value undefined |
| Watchers.Watcher.Capture | src/reactive/watch.ts:53-55 | without `immediate`: one recompute whose value becomes the old value, and no callback |
| Watchers.Watcher.Recompute | src/reactive/watch.ts:15-21 | a function source's result is the value and its reads are the deps; any other source gives `traverse(source)` |
| Watchers.Watcher.Job | src/reactive/watch.ts:31-38 | recompute, the last registered invalidation, the callback with (new, old), then old := new; the callback's registrations replace `cleanup` |
| Watchers.Watcher.Record | src/reactive/watch.ts:33-37 | the job's steps after recomputing, in that order |
| Watchers.Watcher.Schedule | src/reactive/watch.ts:42-48 | `flush: 'post'` defers the job (nothing happens now); any other flush runs it at once |
| Watchers.Watcher.Flush | src/reactive/watch.ts:44 | a deferred job runs later, as a job does |
| Watchers.Watch | src/reactive/watch.ts:14-56 | with `immediate`: one job, with old value undefined and one callback call; without: the effect runs once, its value becomes the old value, and there is no call |

## Left out

- Console output (`console.warn`, `console.log`) is not modelled.
- The prototype chain, property descriptors beyond "non-writable, non-enumerable, non-configurable", and getters are not modelled, except the carrier's `value` accessor. The host object's `value` getter is modelled only when the read goes through its class (`ComputedValues.Computed.Value`); a `Reflect.get` of it gives undefined (the `Reactive.Runtime.GetProp` line below).
- Reactive.Runtime.SetProp: a carrier or host object takes no keys besides its own. In JavaScript they are extensible object literals, so writing another key adds it; the model reports false. The model's own code never writes such a key.
- Reactive.Runtime.DeleteProp: deleting a carrier's or host's `value` reports false and keeps the accessor. In JavaScript that accessor is configurable, so the delete reports true and removes it.
- Key order is not modelled: keys are sets, and `trigger` and `toRefs` may iterate in any order.
- The weak-reference semantics of the bucket and the caches is not modelled: `WeakMap` becomes an ordinary map.
- Numbers are integers plus NaN. Fractions and infinities are not modelled.
- Values.StringToNumber: converts the empty string and optionally signed decimal digits. Whitespace padding, fractions, exponents, `0x`/`0o`/`0b` prefixes and "Infinity" give NaN here, while `Number` converts them. The same gap holds for Values.KeyToNumber, Reactive.ChangeKind, Effects.TriggerSelects and Effects.ScanLength on such names, and for Objects.RawSet on such strings written to `length`.
- Values.ToNumber: an object value is NaN. `Number` would call its `valueOf`/`toString`, so `arr.length = [3]` throws RangeError in the model.
- The algorithms of the array methods (`push`, `splice`, `includes`, ...) are not modelled. A mutator is given as the sequence of reads and writes it makes. A search is given by its two results: through the wrapper and on the raw array.
- The searches have no caller in the model: `Reactive.SearchResult` and its correction are stated as functions only.
- Effect functions, getters and callbacks are caller code. They are given as their reads, their nested runs, their results and their `onInvalidate` registrations. A callback's own side effects are not modelled.
- Exceptions thrown by effect functions are not modelled. The source has no `try`/`finally`, so nothing is claimed about the stack after an abnormal exit.
- Running what `trigger` selects is left to the caller: `trigger` returns its dispatch list, and each `Schedule`/`RunNow` is the caller's next step.
- Microtask scheduling for `flush: 'post'` is modelled as a count of pending jobs. `'pre'`, `'sync'` and a missing flush all run the job at once, as in the source.
- Watchers.Traverse: recursion stops after a depth given by the caller (`fuel`), because recursion through the heap has no other termination measure. Below that depth, properties are not read.
- Watchers.Watcher.Recompute: for a traversed source, the deps are not stated, only that the traversal ran inside the watch effect.
- Reactive.Runtime.GetProp: the result is stated when the object read is ordinary, or is a wrapper or carrier over an ordinary object. A wrapper of a wrapper is covered only by the invariants. The same holds for SetProp, DeleteProp and OwnKeysOf.
- Reactive.Runtime.GetProp: reading a host object's `value` through `Reflect.get` (by `traverse`, by a `toRef` carrier onto it, or by a wrapper over it) gives undefined, runs no getter and tracks nothing. In the source, a computed's `obj` is an object literal with an enumerable `value` getter (src/reactive/computed.ts:17-26), so that read runs the effect when dirty, tracks `(obj, 'value')` and returns the cached value. As a consequence `watch(computed(...), cb)` subscribes to nothing here and `cb` never re-runs, whereas in the source the watcher subscribes to the computed's `value` and re-runs when the computed is invalidated. The getter lives in `ComputedValues.Computed`, which is built on the runtime; the runtime's traps cannot call back into it.
- Reactive.Runtime.CallMutator: the effects a mutator's writes select are returned as dispatches, not run. In the source, an effect without a scheduler runs at once, inside the mutator, with `shouldTrack` false. Its cleanup empties its subscriptions, and its reads subscribe nothing. So an effect that reads `arr.length` is re-run by one `push` and never again. The model's unchanged bucket and deps hold only because of this deferral. After a throw, the model also discards the dispatches of the earlier writes, which the source has already run. The array's contents afterwards are not stated either.
- Reactive.Runtime.Perform: a read's value and any wrapper it creates are not stated. A write or delete through a wrapper of a wrapper is covered only by the invariants.
- Refs.RefsProxy.Get: for a property holding a wrapper, the result is stated only for a deep writable wrapper of a ref object with a non-object `value`. For a carrier onto a wrapper, the key `raw` and an instrumented array method are not covered.
- Refs.RefsProxy.WriteViaObject: for a property holding a wrapped ref, the dispatches are stated only when no effect is tracking. The same holds for Refs.RefsProxy.Set and Refs.RefsProxy.WriteVia.
- Refs.RefsProxy.IsRefObject: for a wrapper, the result is stated only when the target's `__v_isRef` is `true`.
- Refs.IsRef: for a wrapper, "heap unchanged" is stated only when the flag is not an object.
- ComputedValues.Computed.Value: the reader's new subscription is stated only when the reader is not one of the effects the getter run restarts.

## Findings

| source | as written | input that shows it | evidently intended | confidence | as-written member | corrected member |
|---|---|---|---|---|---|---|
| src/reactive/effect.ts:29 | the instrumented search retries on the raw array only when the result is `false`, so `indexOf` and `lastIndexOf` never retry | `r = reactive([o])`, then `r.indexOf(o)` for a raw object `o`: through the wrapper the element reads as `reactive(o)`, so the search gives -1, and the -1 is returned although `o` is at index 0 of the raw array | retry when the result is `false` or -1, as the instrumentation of all three methods means to do | not executed | Reactive.IndexSearchKeepsMiss | Reactive.IntendedIndexSearchFinds |
