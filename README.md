# Zone runtime

The model covers the `Zone` class of `src/index.ts`. It is a small, synchronous, single-threaded runtime that propagates a context.

- Zones form a tree. Every zone built takes the next value of a process-wide counter (`Zone.index`) as its index. A zone forked from a parent inherits the parent's properties through its prototype chain.
- A global cell (`g.zone`) holds the current zone. It starts at the root zone, which the module builds when it is loaded.
- `run` sets the cell to a zone and calls the zone's `onEnter` hook. It then applies the body, logging and swallowing anything the body throws, calls `onLeave`, and restores the cell.
- `bind` forks one child zone and returns a wrapper that always runs its function in that child.
- `bindArguments` replaces, in place, each function in an argument list with such a wrapper.
- `patchFn` replaces entries of a host object (for example `setTimeout` on the global object). The host entry becomes a forwarder that calls whatever the zone current at call time holds under that name. The zone current at patch time receives a delegate, which rebinds the arguments and calls the original.

Five modules:

- `ZoneValues` defines the data.
  - Values are data, zone references, application functions, bound wrappers, delegates and forwarders.
  - A zone record is a parent link plus own properties.
  - The state is the counter, the cell, the zones in creation order, the host objects and an event trace.
  - The application's own functions (bodies, hooks, host primitives) form a small script language. A script returns a value, throws one, or calls a function and then continues.
  - The runtime invariant `Valid` says: the counter equals the number of zones; every parent was built before its child; every stored value refers only to zones that exist; and the cell holds a zone.
- `ZoneTree` covers construction and prototype-chain lookup.
- `ZoneSemantics` gives the meaning of each operation as a function from the old state to the new state and the outcome.
- `ZoneRuntime` holds the class `Runtime`. Its fields are the counter, the cell, the zones and the host objects, and its methods update them in place step by step, as the source does:
  - the spec keys are copied in a loop;
  - `bindArguments` edits an `array` from the last entry to the first;
  - `run` saves, sets and restores the cell around a try, a catch and a finally.

  Each method is proved to end in exactly the state and outcome that the matching function of `ZoneSemantics` gives.
- `ZoneProperties` proves what `run`, `bind`, `bindArguments` and `patchFn` promise, as lemmas over those functions.

## Model

| member | source | states |
|---|---|---|
| ZoneTree.Chain | src/index.ts:31-34 | the prototype chain of a zone starts at the zone, stays within existing zones and ends at a zone without a parent |
| ZoneTree.ChainBelow | src/index.ts:32-33 | no zone on a chain has a larger index than the zone the chain starts from |
| ZoneTree.ChainDecreasing | src/index.ts:32-33 | indices strictly decrease along the chain, because a parent exists before its child takes `++Zone.index`; this is why lookup ends |
| ZoneTree.Lookup | src/index.ts:32-37 | a property read gives `undefined` or a value that the zone itself or an earlier-built zone owns under that key |
| ZoneTree.LookupFirstOwner | src/index.ts:32-37 | a property read gives the value of the first zone on the chain that owns the key |
| ZoneTree.LookupNoOwner | src/index.ts:32-37 | a property read gives `undefined` when no zone on the chain owns the key |
| ZoneTree.LookupStable | src/index.ts:31-39 | building more zones never changes what an existing zone reads |
| ZoneTree.LookupWF | src/index.ts:32-37 | a property read only yields values that refer to existing zones |
| ZoneTree.NewZone | src/index.ts:31-39 | the new zone's index is the old counter plus 1 and becomes the counter; existing zones are kept; the new zone has the given parent, `index`, `parentZone` and the spec keys (which override those two); the cell, hosts and trace are unchanged |
| ZoneTree.ForkLookup | src/index.ts:35-37 | a forked zone reads a spec key as the spec's value, `index` and `parentZone` as its own index and its parent, and every other key as its parent reads it |
| ZoneTree.RootLookup | src/index.ts:77 | the root is the first zone and takes index 1; it reads `index` as 1, `parentZone` as null and every other key as undefined |
| ZoneSemantics.ValidNewZone | src/index.ts:31-39 | building a zone from an existing parent and well-formed spec values keeps the runtime invariant |
| ZoneSemantics.Bind | src/index.ts:69-74 | `bind` forks exactly one child of the zone, at bind time; the wrapper runs `fn` in the zone numbered by the old counter plus 1, and nothing else changes |
| ZoneSemantics.BindArgs | src/index.ts:8-15 | the list keeps its length; the counter grows by exactly the number of function entries; existing zones are kept; the cell, hosts and trace are unchanged |
| ZoneSemantics.BindArgsChildren | src/index.ts:9-11 | every zone added by `bindArguments` is a fresh child of the zone current at the call, owning only `index` and `parentZone` |
| ZoneSemantics.BindArgsEntries | src/index.ts:9-13 | non-function entries are unchanged; function entry `i` becomes a wrapper over the zone numbered by the old counter plus the number of function entries from `i` to the end |
| ZoneSemantics.ValidBindArgs | src/index.ts:8-15 | rebinding the arguments keeps the runtime invariant |
| ZoneSemantics.BindArgsWF | src/index.ts:8-15 | the rebound arguments refer only to existing zones |
| ZoneSemantics.Patch | src/index.ts:17-29 | patching builds no zone: the counter, the cell and the trace are unchanged, and host `h` is still there |
| ZoneSemantics.PatchOne | src/index.ts:19-26 | one name: a truthy host entry becomes the forwarder for that name; no zone is built and the counter, cell and trace are unchanged |
| ZoneSemantics.PatchFrame | src/index.ts:17-29 | patching changes only the current zone's properties and host `h`'s entries; every other zone and host, the current zone's parent link, the set of hosts and host `h`'s key set are unchanged |
| ZoneSemantics.PatchHost | src/index.ts:18-26 | for any list of names, repeated or not, each listed name with a truthy entry becomes a forwarder on the host; falsy and unlisted entries stay as they were |
| ZoneSemantics.PatchZone | src/index.ts:18-23 | the zone current at patch time gets a delegate to the original under each listed name with a truthy entry; its other properties stay as they were |
| ZoneSemantics.ValidPatch | src/index.ts:17-29 | patching keeps the runtime invariant |
| ZoneSemantics.Call | src/index.ts:21-26 | calling any value keeps the invariant and only grows the state; a normal return leaves the cell as it was; every body application happens in its zone |
| ZoneSemantics.Exec | src/index.ts:57 | running application code keeps the invariant, only grows the state, and on a normal return leaves the cell as it was |
| ZoneSemantics.Try | src/index.ts:53-57 | the try block of `run` keeps the invariant; when it completes normally the cell still holds the running zone |
| ZoneSemantics.Finally | src/index.ts:60-63 | the `onLeave` call keeps the invariant; a normal return leaves the cell as it was |
| ZoneSemantics.Run | src/index.ts:45-67 | `run` keeps the invariant and only grows the state; when it returns normally the cell holds what it held on entry, so nested runs restore in LIFO order; every body application happens with the cell holding its zone |
| ZoneSemantics.Guarded | src/index.ts:52-63 | try, catch and finally keep the invariant and only grow the state |
| ZoneSemantics.Boot | src/index.ts:77 | after loading, the counter is 1 and the cell holds the root, zone 1, which has no parent |
| ZoneSemantics.ValidBoot | src/index.ts:6 | the loaded runtime satisfies the invariant |
| ZoneProperties.CallLeaf | src/index.ts:57 | calling a function that makes no call records it with the current cell and gives its result |
| ZoneProperties.TryLeaves | src/index.ts:53-57 | the try block gives the event sequence and outcome `TryPart` describes: `onEnter` first, then the body only if `onEnter` returned |
| ZoneProperties.LeaveLeaf | src/index.ts:60-63 | the finally block calls `onLeave` only when the zone reads a truthy one |
| ZoneProperties.RunLeaves | src/index.ts:45-67 | with leaf hooks and body, `run` equals the event-by-event reference `LeafRun` |
| ZoneProperties.TryAnyBody | src/index.ts:53-57 | with an `onEnter` that returns, the try block applies the body, whatever it does, in the running zone after the `onEnter` events |
| ZoneProperties.FinallyAfter | src/index.ts:60-63 | the finally block, reached with the cell at the running zone, runs exactly the `onLeave` that zone read on entry |
| ZoneProperties.RunReturnsBody | src/index.ts:50-66 | for any body that returns: `run` returns its value, restores the cell, keeps the body's zones and hosts, and records `onEnter`, the body's events and `onLeave` in that order |
| ZoneProperties.RunBodyThrows | src/index.ts:57-66 | for any body that throws: the error is logged, not propagated, `onLeave` still runs, `run` returns undefined, the cell is restored and the body's zones and hosts are kept |
| ZoneProperties.RunEnterThrows | src/index.ts:54-66 | for any body, an `onEnter` that throws: the body is never applied, the error is logged, `onLeave` still runs, `run` returns undefined, the cell is restored and no zone or host changes |
| ZoneProperties.RunLeaveThrows | src/index.ts:61-64 | for any body that returns or throws, an `onLeave` that throws: its exception escapes `run`, and the cell is left at the running zone |
| ZoneProperties.BoundIgnoresCell | src/index.ts:70-73 | a bound wrapper gives the same outcome, zones, hosts and events whatever zone is current when it is called |
| ZoneProperties.BindFresh | src/index.ts:69-70 | a zone forked by a later `bind` has a larger index than an earlier `bind`'s zone, so two wrappers never share a zone |
| ZoneProperties.BindArgsOrder | src/index.ts:9-11 | of two function entries, the later one is bound to the zone with the smaller index, and both zones are new |
| ZoneProperties.ForwarderCallsDelegate | src/index.ts:21-25 | the forwarder calls what the current zone reads under the name; for a delegate, that means rebinding the arguments and calling the original |
| ZoneProperties.PatchedCall | src/index.ts:17-26 | after patching, calling the host entry in the patching zone rebinds the arguments and calls the original entry |
| ZoneProperties.ForwardingLoop | src/index.ts:21-25 | a delegate whose original is its own forwarder never finishes, for any call-depth bound |
| ZoneProperties.PatchTwiceLoops | src/index.ts:19-25 | patching a name twice in the same zone makes the second delegate capture the first forwarder, and calling the host entry then never finishes |
| ZoneRuntime.Runtime.constructor | src/index.ts:77 | loading starts the counter at 0 and stores the root in the cell; the state equals `Boot` and satisfies the invariant |
| ZoneRuntime.Runtime.NewZone | src/index.ts:31-39 | incrementing the counter and copying the spec keys one by one gives exactly `ZoneTree.NewZone`, and keeps the runtime invariant when it held |
| ZoneRuntime.CopyKeys | src/index.ts:35-37 | writing the spec's keys one at a time, in any order, gives the defaults overridden by the spec |
| ZoneRuntime.Runtime.Fork | src/index.ts:41-43 | `fork` gives exactly `ZoneTree.NewZone` with the receiver as parent, and keeps the runtime invariant |
| ZoneRuntime.Runtime.Bind | src/index.ts:69-74 | the in-place `bind` gives exactly `ZoneSemantics.Bind`; it keeps the runtime invariant when it held, and the wrapper refers only to existing zones when `fn` did |
| ZoneRuntime.Runtime.BindArguments | src/index.ts:8-15 | the backward in-place loop over the array gives exactly `BindArgs` of the old array and state; it keeps the runtime invariant when it held, and the arguments refer only to existing zones when they did before |
| ZoneRuntime.Runtime.BindEntry | src/index.ts:10-12 | one step of the loop: a function entry is replaced by a wrapper over a zone forked from the current one, exactly as `ZoneSemantics.Bind` describes; any other entry and the state stay as they were |
| ZoneRuntime.Runtime.PatchFn | src/index.ts:17-29 | the name-by-name loop gives exactly `Patch` and keeps the runtime invariant |
| ZoneRuntime.Runtime.Call | src/index.ts:21-26 | dispatching a call gives exactly `ZoneSemantics.Call` |
| ZoneRuntime.Runtime.CallUser | src/index.ts:57 | calling an application function gives exactly `ZoneSemantics.Call` |
| ZoneRuntime.Runtime.CallBound | src/index.ts:71-73 | the wrapper's body `zone.run(fn, this, arguments)` gives exactly `ZoneSemantics.Call` |
| ZoneRuntime.Runtime.CallDelegate | src/index.ts:21-23 | the delegate rebinds an in-place copy of its arguments and calls the original, giving exactly `ZoneSemantics.Call` |
| ZoneRuntime.Runtime.CallForwarder | src/index.ts:24-26 | the forwarder reads the name on the current zone and calls it, giving exactly `ZoneSemantics.Call` |
| ZoneRuntime.Runtime.Exec | src/index.ts:57 | running a script gives exactly `ZoneSemantics.Exec` |
| ZoneRuntime.Runtime.Run | src/index.ts:45-67 | saving, setting and restoring the cell around the try, catch and finally gives exactly `ZoneSemantics.Run` |
| ZoneRuntime.Runtime.TryBlock | src/index.ts:53-57 | the try block gives exactly `ZoneSemantics.Try` |
| ZoneRuntime.Runtime.FinallyBlock | src/index.ts:60-63 | the `onLeave` part of the finally block gives exactly `ZoneSemantics.Finally` |

## Left out

- The demo after line 78 (`_setTimeout`, `zoneA`, `main`, `workFn`, the timing): it is an application of the mechanism and depends on wall-clock time, console output and floating point.
- The host's real `setTimeout` and event loop: deferred execution is external scheduling. A patched primitive is modelled only as an original function stored on a host object.
- `console.error` (line 59): it is recorded as a `Logged` event in the trace. Nothing is printed.
- The receiver (`this`, `applyTo`, `obj` in `delegate.apply(obj, …)`): nothing in the model reads it.
- `Object.create` identity, the `arguments` object's aliasing, and the `ZoneSpec`/`parentZone` parameter properties that TypeScript assigns to the discarded `this` of a forked zone (line 31). The root zone is `this` itself, so in the source it also owns a `ZoneSpec` property holding `{}`. The model gives every zone only `index`, `parentZone` and its spec keys.
- Inherited methods: in the source every zone's chain continues past the root into `Zone.prototype` (`fork`, `run`, `bind`, `constructor`, lines 41-74) and `Object.prototype` (such as `toString`). So `g.zone[name]` in a forwarder (line 25), or a hook named like one of these, can find a method where the model's chain ends at the root and `Lookup` gives `undefined`. In the model, `fork`, `run` and `bind` are operations, not properties.
- Application code as a caller of the runtime: scripts cannot call `fork`, `bind`, `run`, `bindArguments` or `patchFn`, and cannot write zone properties or host entries. The source's own hooks do write them (line 86 sets `this.startTime`). `Grows` and the frame facts about zones and hosts hold only because of this restriction.
- Numbers are mathematical integers. Application code is a small script language that returns, throws, or calls and continues. It cannot compute new values, and its literals cannot name zones.
- Writes to `g.zone` from application code: the only writes to the cell are those made by `run`.
- ZoneSemantics.Call: a `fuel` bound on nested calls replaces the JavaScript stack. Where the source would overflow the stack (a `RangeError`), the model answers `OutOfFuel`, which `run` does not swallow. The properties hold for every fuel value.
- ZoneSemantics.Run: hooks are read on the zone the cell holds, as lines 54 and 61 do, not on the receiver. After an inner `run` whose `onLeave` threw, the cell is not restored, so an enclosing `run` reads its `onLeave` hook on the inner zone. This is modelled as written; `RunLeaveThrows` states only the first step.
- RunReturnsBody, RunBodyThrows, RunEnterThrows, RunLeaveThrows: the hooks must be absent or leaf functions (a hook that makes a call is not covered), and a body that throws is covered only when it leaves the cell at the running zone. A body whose nested `run` had a throwing `onLeave` leaves the cell elsewhere; `onLeave` is then read on that other zone, as line 61 does.
- ZoneRuntime.Runtime.NewZone, ZoneRuntime.Runtime.Bind, ZoneRuntime.Runtime.BindArguments: each keeps the invariant only when it held on entry (`old(Valid()) ==> Valid()`) rather than requiring it. The constructor builds the root before the cell holds a zone, so `NewZone` must run when the invariant does not yet hold; `Bind` and `BindArguments` use the same form to keep their loop proofs small.
