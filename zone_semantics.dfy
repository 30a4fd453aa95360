/** The meaning of every operation of the `Zone` class (src/index.ts:4-77), as functions
    from the runtime state to the new state and the outcome.  The class in ZoneRuntime
    performs the same steps in place and is proved to end in exactly these states.

    Calling a function value is `Call`; what it does depends on the kind of callable:
    an application function runs its script, a `ZoneBoundFn` wrapper runs its target in its
    captured zone (`Run`), a patched delegate rebinds its arguments and calls the original,
    and a patched forwarder calls whatever the current zone holds under its name.  The
    `fuel` argument bounds the depth of nested calls; `OutOfFuel` is the answer when it runs
    out, so every property below is about computations that finish. */
module ZoneSemantics {
  import opened ZoneValues
  import opened ZoneTree

  /** Building a zone keeps the runtime invariant, provided its parent exists and its spec
      only holds values that refer to existing zones or to itself. */
  lemma ValidNewZone(st: State, parent: Option<ZoneId>, spec: map<string, Value>)
    requires Valid(st)
    requires parent.Some? ==> IsZone(st.zones, parent.value)
    requires forall k | k in spec :: WF(spec[k], st.counter + 1)
    ensures Valid(NewZone(st, parent, spec).0)
  {
    var (st', id) := NewZone(st, parent, spec);
    forall i, k | 0 <= i < |st'.zones| && k in st'.zones[i].props ensures WF(st'.zones[i].props[k], st'.counter) {
      if i < |st.zones| {
        assert st'.zones[i] == st.zones[i];
        assert WF(st.zones[i].props[k], st.counter);
      }
    }
    forall i | 0 <= i < |st'.zones| && st'.zones[i].parent.Some? ensures 1 <= st'.zones[i].parent.value <= i {
      if i < |st.zones| {
        assert st'.zones[i] == st.zones[i];
      }
    }
  }

  /** The invariant does not depend on the trace, and holds for any existing zone in the cell. */
  lemma ValidRecord(st: State, z: ZoneId, t: seq<Event>)
    requires Valid(st) && IsZone(st.zones, z)
    ensures Valid(st.(current := z, trace := t))
  {
  }

  /** The state only grows during a call: the counter never goes back, no existing zone
      record changes, the host objects are untouched and events are only appended. */
  predicate Grows(st: State, st': State) {
    && st.counter <= st'.counter
    && st.zones <= st'.zones
    && st'.hosts == st.hosts
    && st.trace <= st'.trace
  }

  /** Every recorded application of a `run` body happened with the cell holding the zone
      being run. */
  predicate AppliedInZone(trace: seq<Event>) {
    forall i | 0 <= i < |trace| && trace[i].Apply? :: trace[i].running == trace[i].cell
  }

  /** `zone.bind(fn)` (lines 69-74): fork one child of `z` now and return a wrapper that
      will always run `fn` in that child. */
  function Bind(st: State, z: ZoneId, fn: Value): (r: (State, Value))
    requires st.counter == |st.zones|
    ensures r.1 == Bound(st.counter + 1, fn) && r.0.counter == st.counter + 1 && |r.0.zones| == r.0.counter
    ensures st.zones <= r.0.zones && r.0.zones[st.counter] == ZoneRec(Some(z), OwnProps(st.counter + 1, Some(z), map[]))
    ensures r.0.current == st.current && r.0.hosts == st.hosts && r.0.trace == st.trace
  {
    var (st', id) := NewZone(st, Some(z), map[]);
    (st', Bound(id, fn))
  }

  /** The number of function entries in an argument list. */
  function FnCount(args: seq<Value>): (n: nat)
    ensures n <= |args|
  {
    if args == [] then 0
    else FnCount(args[..|args| - 1]) + (if IsFunction(args[|args| - 1]) then 1 else 0)
  }

  lemma {:induction false} FnCountSplit(args: seq<Value>, i: nat)
    requires i < |args|
    ensures FnCount(args[i..]) == FnCount(args[i..|args| - 1]) + (if IsFunction(args[|args| - 1]) then 1 else 0)
  {
    assert args[i..][..|args[i..]| - 1] == args[i..|args| - 1];
  }

  /** `Zone.bindArguments(args)` (lines 8-15): scanning from the last entry to the first,
      every function entry is replaced by `g.zone.bind(entry)`.  The list keeps its length,
      the counter grows by the number of function entries, and nothing but the zones
      changes.  `BindArgsChildren` says what the zones built are, and `BindArgsEntries`
      what each entry becomes. */
  function BindArgs(st: State, args: seq<Value>): (r: (State, seq<Value>))
    requires st.counter == |st.zones|
    ensures |r.1| == |args|
    ensures r.0.counter == st.counter + FnCount(args) && |r.0.zones| == r.0.counter
    ensures st.zones <= r.0.zones
    ensures r.0.current == st.current && r.0.hosts == st.hosts && r.0.trace == st.trace
    decreases |args|
  {
    if args == [] then (st, [])
    else
      var last := args[|args| - 1];
      var front := args[..|args| - 1];
      if IsFunction(last) then
        var (st1, w) := Bind(st, st.current, last);
        var (st2, front') := BindArgs(st1, front);
        (st2, front' + [w])
      else
        var (st2, front') := BindArgs(st, front);
        (st2, front' + [last])
  }

  /** Every zone `bindArguments` builds is a fresh child of the zone current at the call,
      owning only `index` and `parentZone`. */
  lemma {:induction false} BindArgsChildren(st: State, args: seq<Value>)
    requires st.counter == |st.zones|
    ensures forall i | |st.zones| <= i < |BindArgs(st, args).0.zones| ::
      BindArgs(st, args).0.zones[i] == ZoneRec(Some(st.current), OwnProps(i + 1, Some(st.current), map[]))
    decreases |args|
  {
    if args != [] {
      var last := args[|args| - 1];
      var front := args[..|args| - 1];
      if IsFunction(last) {
        var st1 := Bind(st, st.current, last).0;
        BindArgsChildren(st1, front);
        var r := BindArgs(st, args);
        assert r.0 == BindArgs(st1, front).0;
        assert r.0.zones[|st.zones|] == st1.zones[|st.zones|];
      } else {
        BindArgsChildren(st, front);
        assert BindArgs(st, args).0 == BindArgs(st, front).0;
      }
    }
  }

  /** `BindArgs` on a non-empty list: the last entry is handled first. */
  lemma BindArgsLast(st: State, args: seq<Value>)
    requires st.counter == |st.zones| && args != []
    ensures var x := args[|args| - 1];
      var st1 := if IsFunction(x) then Bind(st, st.current, x).0 else st;
      BindArgs(st, args) ==
        (BindArgs(st1, args[..|args| - 1]).0,
         BindArgs(st1, args[..|args| - 1]).1 + [if IsFunction(x) then Bound(st.counter + 1, x) else x])
  {
  }

  lemma ConcatAssoc<T>(a: seq<T>, b: seq<T>, c: seq<T>)
    ensures (a + b) + c == a + (b + c)
  {
  }

  /** What `bindArguments` makes of each entry: a non-function entry stays as it is, and
      function entry `i` becomes a wrapper over the zone numbered by the old counter plus
      the number of function entries from `i` to the end, so later entries get smaller
      indices. */
  lemma {:induction false} BindArgsEntries(st: State, args: seq<Value>, i: nat)
    requires st.counter == |st.zones| && i < |args|
    ensures BindArgs(st, args).1[i] ==
      if IsFunction(args[i]) then Bound(st.counter + FnCount(args[i..]), args[i]) else args[i]
    decreases |args|
  {
    var last := args[|args| - 1];
    var front := args[..|args| - 1];
    var st1 := if IsFunction(last) then Bind(st, st.current, last).0 else st;
    BindArgsLast(st, args);
    FnCountSplit(args, i);
    if i < |args| - 1 {
      assert args[i..|args| - 1] == front[i..];
      BindArgsEntries(st1, front, i);
    } else {
      assert args[i..|args| - 1] == [];
    }
  }

  /** Binding the arguments keeps the runtime invariant ... */
  lemma ValidBindArgs(st: State, args: seq<Value>)
    requires Valid(st)
    ensures Valid(BindArgs(st, args).0)
  {
    var st' := BindArgs(st, args).0;
    BindArgsChildren(st, args);
    assert PropsWF(st'.zones, st'.counter) by {
      forall i, k | 0 <= i < |st'.zones| && k in st'.zones[i].props ensures WF(st'.zones[i].props[k], st'.counter) {
        if i < |st.zones| {
          assert st'.zones[i] == st.zones[i];
          assert WF(st.zones[i].props[k], st.counter);
        } else {
          assert st'.zones[i] == ZoneRec(Some(st.current), OwnProps(i + 1, Some(st.current), map[]));
        }
      }
    }
    assert ParentsBelow(st'.zones) by {
      forall i | 0 <= i < |st'.zones| && st'.zones[i].parent.Some? ensures 1 <= st'.zones[i].parent.value <= i {
        if i < |st.zones| {
          assert st'.zones[i] == st.zones[i];
        } else {
          assert st'.zones[i].parent == Some(st.current);
        }
      }
    }
  }

  /** ... and yields arguments that refer only to existing zones. */
  lemma BindArgsWF(st: State, args: seq<Value>)
    requires st.counter == |st.zones| && AllWF(args, st.counter)
    ensures AllWF(BindArgs(st, args).1, BindArgs(st, args).0.counter)
  {
    var (st', args') := BindArgs(st, args);
    forall i | 0 <= i < |args| ensures WF(args'[i], st'.counter) {
      assert WF(args[i], st.counter);
      BindArgsEntries(st, args, i);
      if IsFunction(args[i]) {
        FnCountSuffix(args, i);
      }
    }
  }

  lemma {:induction false} FnCountSuffix(args: seq<Value>, i: nat)
    requires i <= |args|
    ensures FnCount(args[i..]) <= FnCount(args)
    decreases |args|
  {
    if i < |args| {
      FnCountSplit(args, i);
      assert args[i..|args| - 1] == args[..|args| - 1][i..];
      FnCountSuffix(args[..|args| - 1], i);
    } else {
      assert args[i..] == [];
    }
  }

  /** The entry `name` of host object `h`, `undefined` if it has none. */
  function HostEntry(hosts: map<HostId, map<string, Value>>, h: HostId, name: string): Value {
    if h in hosts && name in hosts[h] then hosts[h][name] else Undefined
  }

  /** One step of `Zone.patchFn` (lines 19-26): when the host entry is truthy, the current
      zone gets a delegate calling the original, and the host entry becomes a forwarder. */
  function PatchOne(st: State, h: HostId, name: string): (r: State)
    requires IsZone(st.zones, st.current) && h in st.hosts
    ensures r.counter == st.counter && r.current == st.current && r.trace == st.trace
    ensures |r.zones| == |st.zones| && h in r.hosts
    ensures Truthy(HostEntry(st.hosts, h, name)) ==> HostEntry(r.hosts, h, name) == Forwarder(name)
  {
    var original := HostEntry(st.hosts, h, name);
    if !Truthy(original) then st
    else
      var cur := st.zones[st.current - 1];
      st.(zones := st.zones[st.current - 1 := cur.(props := cur.props[name := Delegate(h, original)])],
          hosts := st.hosts[h := st.hosts[h][name := Forwarder(name)]])
  }

  predicate NoDuplicates(names: seq<string>) {
    forall i, j | 0 <= i < j < |names| :: names[i] != names[j]
  }

  /** `Zone.patchFn(obj, fnNames)` (lines 17-29): `PatchOne` for each name in order.  No
      zone is built or dropped, the host stays, and the counter, the cell and the trace stay
      as they were; `PatchFrame` says which records may change. */
  function Patch(st: State, h: HostId, names: seq<string>): (r: State)
    requires IsZone(st.zones, st.current) && h in st.hosts
    ensures r.counter == st.counter && r.current == st.current && r.trace == st.trace
    ensures |r.zones| == |st.zones| && h in r.hosts
    decreases |names|
  {
    if names == [] then st else Patch(PatchOne(st, h, names[0]), h, names[1..])
  }

  /** Patching changes only the current zone's properties (not its parent) and host `h`'s
      entries (not its key set). */
  lemma {:induction false} PatchFrame(st: State, h: HostId, names: seq<string>)
    requires IsZone(st.zones, st.current) && h in st.hosts
    ensures var r := Patch(st, h, names);
      && (forall i | 0 <= i < |st.zones| && i != st.current - 1 :: r.zones[i] == st.zones[i])
      && r.zones[st.current - 1].parent == st.zones[st.current - 1].parent
      && r.hosts.Keys == st.hosts.Keys && r.hosts[h].Keys == st.hosts[h].Keys
      && (forall g | g in st.hosts && g != h :: r.hosts[g] == st.hosts[g])
    decreases |names|
  {
    if names != [] {
      PatchFrame(PatchOne(st, h, names[0]), h, names[1..]);
    }
  }

  /** Every listed name whose host entry is truthy becomes a forwarder on the host (a
      repeated name finds the truthy forwarder and writes it again), and every other entry
      of the host stays. */
  lemma {:induction false} PatchHost(st: State, h: HostId, names: seq<string>, k: string)
    requires IsZone(st.zones, st.current) && h in st.hosts
    ensures var r := Patch(st, h, names);
      HostEntry(r.hosts, h, k) ==
        if k in names && Truthy(HostEntry(st.hosts, h, k)) then Forwarder(k) else HostEntry(st.hosts, h, k)
    decreases |names|
  {
    if names != [] {
      var st1 := PatchOne(st, h, names[0]);
      PatchHost(st1, h, names[1..], k);
      assert k in names <==> k == names[0] || k in names[1..];
    }
  }

  /** The own properties of the zone current at patch time. */
  function CurrentProps(st: State): map<string, Value>
    requires IsZone(st.zones, st.current)
  {
    st.zones[st.current - 1].props
  }

  /** For a list without repeated names, the zone current at patch time holds a delegate
      to the original host entry under every listed name whose entry was truthy, and
      every other property of it stays. */
  lemma {:induction false} PatchZone(st: State, h: HostId, names: seq<string>, k: string)
    requires IsZone(st.zones, st.current) && h in st.hosts && NoDuplicates(names)
    ensures var r := Patch(st, h, names);
      IsZone(r.zones, r.current) &&
      if k in names && Truthy(HostEntry(st.hosts, h, k)) then
        k in CurrentProps(r) && CurrentProps(r)[k] == Delegate(h, HostEntry(st.hosts, h, k))
      else
        (k in CurrentProps(r) <==> k in CurrentProps(st)) &&
        (k in CurrentProps(st) ==> CurrentProps(r)[k] == CurrentProps(st)[k])
    decreases |names|
  {
    if names != [] {
      var st1 := PatchOne(st, h, names[0]);
      PatchZone(st1, h, names[1..], k);
      assert names[0] !in names[1..];
      assert NoDuplicates(names[1..]);
      assert k in names <==> k == names[0] || k in names[1..];
      if k != names[0] {
        assert HostEntry(st1.hosts, h, k) == HostEntry(st.hosts, h, k);
      }
    }
  }

  /** Patching keeps the runtime invariant. */
  lemma {:induction false} ValidPatch(st: State, h: HostId, names: seq<string>)
    requires Valid(st) && h in st.hosts
    ensures Valid(Patch(st, h, names))
    decreases |names|
  {
    if names != [] {
      var st1 := PatchOne(st, h, names[0]);
      var original := HostEntry(st.hosts, h, names[0]);
      assert WF(original, st.counter);
      forall i, k | 0 <= i < |st1.zones| && k in st1.zones[i].props ensures WF(st1.zones[i].props[k], st1.counter) {
        if i != st.current - 1 || k != names[0] || !Truthy(original) {
          assert WF(st.zones[i].props[k], st.counter);
        }
      }
      forall i | 0 <= i < |st1.zones| && st1.zones[i].parent.Some? ensures 1 <= st1.zones[i].parent.value <= i {
        assert st1.zones[i].parent == st.zones[i].parent;
      }
      forall g, k | g in st1.hosts && k in st1.hosts[g] ensures WF(st1.hosts[g][k], st1.counter) {
        if g != h || k != names[0] || !Truthy(original) {
          assert WF(st.hosts[g][k], st.counter);
        }
      }
      assert Valid(st1);
      ValidPatch(st1, h, names[1..]);
    }
  }

  /** The value an expression of a script denotes. */
  function Eval(hosts: map<HostId, map<string, Value>>, e: Expr, args: seq<Value>): Value {
    match e
    case Lit(v) => v
    case Arg(i) => if i < |args| then args[i] else Undefined
    case HostGet(h, name) => HostEntry(hosts, h, name)
  }

  function EvalAll(hosts: map<HostId, map<string, Value>>, es: seq<Expr>, args: seq<Value>): (vs: seq<Value>)
    ensures |vs| == |es| && forall i | 0 <= i < |es| :: vs[i] == Eval(hosts, es[i], args)
  {
    seq(|es|, i requires 0 <= i < |es| => Eval(hosts, es[i], args))
  }

  /** A script only ever produces values that refer to existing zones. */
  lemma EvalWF(st: State, e: Expr, args: seq<Value>)
    requires Valid(st) && ExprWF(e) && AllWF(args, st.counter)
    ensures WF(Eval(st.hosts, e, args), st.counter)
  {
    if e.HostGet? && e.host in st.hosts && e.name in st.hosts[e.host] {
      assert WF(st.hosts[e.host][e.name], st.counter);
    }
  }

  /** Calling the function value `f` with `args` (`f.apply(receiver, args)`).
      Whatever `f` is, the call keeps the runtime invariant and only grows the state, and
      when it returns normally the current-zone cell holds what it held before the call.
      A value that is not a function throws a TypeError. */
  function Call(code: map<FnId, Script>, st: State, f: Value, args: seq<Value>, fuel: nat): (r: (State, Outcome))
    requires CodeWF(code) && Valid(st) && WF(f, st.counter) && AllWF(args, st.counter)
    ensures Valid(r.0) && Grows(st, r.0)
    ensures r.1.Returned? ==> r.0.current == st.current
    ensures AppliedInZone(st.trace) ==> AppliedInZone(r.0.trace)
    decreases fuel, 0
  {
    if fuel == 0 then (st, OutOfFuel)
    else match f
      case Fn(id) =>
        // an application function: its body runs with the cell as it is now
        var st1 := st.(trace := st.trace + [UserCode(id, st.current, args)]);
        if id in code then Exec(code, st1, code[id], args, fuel - 1) else (st1, Returned(Undefined))
      case Bound(z, target) =>
        // ZoneBoundFn (lines 71-73): zone.run(fn, this, arguments)
        Run(code, st, z, target, args, fuel - 1)
      case Delegate(h, original) =>
        // the zone-side delegate (lines 21-23): delegate.apply(obj, Zone.bindArguments(arguments))
        ValidBindArgs(st, args);
        BindArgsWF(st, args);
        var (st1, bound) := BindArgs(st, args);
        Call(code, st1, original, bound, fuel - 1)
      case Forwarder(name) =>
        // the host-side forwarder (lines 24-26): g.zone[name].apply(this, arguments)
        LookupWF(st.zones, st.counter, st.current, name);
        Call(code, st, Lookup(st.zones, st.current, name), args, fuel - 1)
      case _ => (st, Threw(NotCallable))
  }

  /** Running a script: each call in turn, stopping at the first that does not return. */
  function Exec(code: map<FnId, Script>, st: State, s: Script, args: seq<Value>, fuel: nat): (r: (State, Outcome))
    requires CodeWF(code) && Valid(st) && ScriptWF(s) && AllWF(args, st.counter)
    ensures Valid(r.0) && Grows(st, r.0)
    ensures r.1.Returned? ==> r.0.current == st.current
    ensures AppliedInZone(st.trace) ==> AppliedInZone(r.0.trace)
    decreases fuel, 1, s
  {
    match s
    case Return(e) => (st, Returned(Eval(st.hosts, e, args)))
    case Throw(e) => (st, Threw(Eval(st.hosts, e, args)))
    case Invoke(c, es, rest) =>
      EvalWF(st, c, args);
      assert AllWF(EvalAll(st.hosts, es, args), st.counter) by {
        forall i | 0 <= i < |es| ensures WF(EvalAll(st.hosts, es, args)[i], st.counter) {
          EvalWF(st, es[i], args);
        }
      }
      var (st1, o) := Call(code, st, Eval(st.hosts, c, args), EvalAll(st.hosts, es, args), fuel);
      if o.Returned? then Exec(code, st1, rest, args, fuel)
      else (st1, o)
  }

  /** The `try` block of `run` (lines 54-57), entered with the cell already set to the
      zone: call `onEnter` if the zone reads a truthy one, then, if that returned, apply
      the body. */
  function Try(code: map<FnId, Script>, st: State, z: ZoneId, f: Value, args: seq<Value>, fuel: nat): (r: (State, Outcome))
    requires CodeWF(code) && Valid(st) && st.current == z && WF(f, st.counter) && AllWF(args, st.counter)
    ensures Valid(r.0) && Grows(st, r.0)
    ensures r.1.Returned? ==> r.0.current == z
    ensures AppliedInZone(st.trace) ==> AppliedInZone(r.0.trace)
    decreases fuel, 2
  {
    var enter := Lookup(st.zones, st.current, "onEnter");
    LookupWF(st.zones, st.counter, st.current, "onEnter");
    var (st1, entered) :=
      if Truthy(enter) then Call(code, st.(trace := st.trace + [EnterHook(st.current)]), enter, [], fuel)
      else (st, Returned(Undefined));
    if !entered.Returned? then (st1, entered)
    else Call(code, st1.(trace := st1.trace + [Apply(z, st1.current)]), f, args, fuel)
  }

  /** The `finally` block of `run` up to the restore (lines 61-63): call `onLeave` if the
      zone the cell holds NOW reads a truthy one. */
  function Finally(code: map<FnId, Script>, st: State, fuel: nat): (r: (State, Outcome))
    requires CodeWF(code) && Valid(st)
    ensures Valid(r.0) && Grows(st, r.0)
    ensures r.1.Returned? ==> r.0.current == st.current
    ensures AppliedInZone(st.trace) ==> AppliedInZone(r.0.trace)
    decreases fuel, 2
  {
    var leave := Lookup(st.zones, st.current, "onLeave");
    LookupWF(st.zones, st.counter, st.current, "onLeave");
    if Truthy(leave) then Call(code, st.(trace := st.trace + [LeaveHook(st.current)]), leave, [], fuel)
    else (st, Returned(Undefined))
  }

  /** `zone.run(fn, applyTo, applyWith)` (lines 45-67): save the cell, point it at the
      zone, run the guarded part (`Guarded`), and restore the saved cell if that part
      completed normally.  `run` returns normally unless `onLeave` throws, and then it
      returns the body's value (`undefined` when the body or `onEnter` threw) with the cell
      restored; when `onLeave` throws, that exception escapes and the restore is skipped.
      Everything but the restored cell is decided by `Guarded` from the state with the cell
      set to `z`, so the cell `run` was called with matters only for the restore. */
  function Run(code: map<FnId, Script>, st: State, z: ZoneId, f: Value, args: seq<Value>, fuel: nat): (r: (State, Outcome))
    requires CodeWF(code) && Valid(st) && IsZone(st.zones, z) && WF(f, st.counter) && AllWF(args, st.counter)
    ensures Valid(r.0) && Grows(st, r.0)
    ensures r.1.Returned? ==> r.0.current == st.current
    ensures AppliedInZone(st.trace) ==> AppliedInZone(r.0.trace)
    decreases fuel, 4
  {
    var (st1, out) := Guarded(code, st.(current := z), z, f, args, fuel);
    if out.Returned? then (st1.(current := st.current), out) else (st1, out)
  }

  /** Lines 52-63 and 66 of `run`, entered with the cell pointing at `z`: the `try` block,
      the `catch` that logs and swallows, and the `finally` hook.  A normal completion
      carries the value `run` returns. */
  function Guarded(code: map<FnId, Script>, st: State, z: ZoneId, f: Value, args: seq<Value>, fuel: nat): (r: (State, Outcome))
    requires CodeWF(code) && Valid(st) && st.current == z && WF(f, st.counter) && AllWF(args, st.counter)
    ensures Valid(r.0) && Grows(st, r.0)
    ensures AppliedInZone(st.trace) ==> AppliedInZone(r.0.trace)
    decreases fuel, 3
  {
    var (st1, tried) := Try(code, st, z, f, args, fuel);
    if tried.OutOfFuel? then (st1, OutOfFuel)
    else
      var st2 := if tried.Threw? then st1.(trace := st1.trace + [Logged(tried.error)]) else st1;
      var result := if tried.Returned? then tried.value else Undefined;
      var (st3, left) := Finally(code, st2, fuel);
      if left.Returned? then (st3, Returned(result)) else (st3, left)
  }

  /** Loading the module: `Zone.index` starts at 0 (line 6) and `g.zone = new Zone()`
      (line 77) builds the root, which takes index 1, has no parent and becomes current. */
  function Boot(hosts: map<HostId, map<string, Value>>): (st: State)
    ensures st.counter == 1 && st.current == 1 && |st.zones| == 1
    ensures st.zones[0].parent.None? && st.hosts == hosts && st.trace == []
  {
    var (st, root) := NewZone(State(0, 0, [], hosts, []), None, map[]);
    st.(current := root)
  }

  /** The booted runtime satisfies the invariant as soon as the host objects' values refer
      at most to the root zone. */
  lemma ValidBoot(hosts: map<HostId, map<string, Value>>)
    requires HostsWF(hosts, 1)
    ensures Valid(Boot(hosts))
  {
  }
}
