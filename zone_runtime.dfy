/** The `Zone` class as the program runs it (src/index.ts:4-77): one object holding the
    static counter `Zone.index`, the global cell `g.zone`, the zone objects and the host
    objects, whose methods change them in place step by step as the source does.  Each
    method is proved to leave exactly the state, and give exactly the outcome, that the
    matching function of ZoneSemantics describes. */
module ZoneRuntime {
  import opened ZoneValues
  import opened ZoneTree
  import opened ZoneSemantics

  class Runtime {
    /** `Zone.index`, the index given to the last zone built. */
    var counter: nat
    /** `g.zone`, the current-zone cell. */
    var current: ZoneId
    /** The zone objects in the order they were built (`zones[z - 1]` has index `z`). */
    var zones: seq<ZoneRec>
    var hosts: map<HostId, map<string, Value>>
    ghost var trace: seq<Event>
    /** The behaviour of the application's own functions. */
    const code: map<FnId, Script>

    ghost function St(): State
      reads this
    {
      State(counter, current, zones, hosts, trace)
    }

    ghost predicate Valid()
      reads this
    {
      CodeWF(code) && ZoneValues.Valid(St())
    }

    /** Loading the module: the counter starts at 0 (line 6), then the root zone is built and
        stored in the cell (line 77). */
    constructor (code: map<FnId, Script>, hosts: map<HostId, map<string, Value>>)
      requires CodeWF(code) && HostsWF(hosts, 1)
      ensures Valid() && St() == Boot(hosts) && this.code == code
    {
      this.code := code;
      counter := 0;
      current := 0;
      zones := [];
      this.hosts := hosts;
      trace := [];
      new;
      var root := NewZone(None, map[]);
      current := root;
      ValidBoot(hosts);
    }

    /** `new Zone(parentZone, ZoneSpec)` (lines 31-39): take `++Zone.index`, set `index` and
        `parentZone`, then copy the spec's keys one at a time.  The parent and the spec's
        values are existing objects, and the invariant, once it holds, is kept (the root
        is built before the cell holds any zone, so the invariant cannot be demanded). */
    method NewZone(parent: Option<ZoneId>, spec: map<string, Value>) returns (id: ZoneId)
      requires counter == |zones| && (parent.Some? ==> IsZone(zones, parent.value))
      requires forall k | k in spec :: WF(spec[k], counter)
      modifies this
      ensures (St(), id) == ZoneTree.NewZone(old(St()), parent, spec)
      ensures old(Valid()) ==> Valid()
    {
      ghost var st0 := St();
      ghost var wasValid := Valid();
      counter := counter + 1;
      id := counter;
      var props := CopyKeys(map["index" := Num(id), "parentZone" := (if parent.Some? then ZoneRef(parent.value) else Null)], spec);
      zones := zones + [ZoneRec(parent, props)];
      assert St() == ZoneTree.NewZone(st0, parent, spec).0;
      if wasValid {
        ValidNewZone(st0, parent, spec);
      }
    }

    /** `zone.fork(ZoneSpec)` (lines 41-43). */
    method Fork(z: ZoneId, spec: map<string, Value>) returns (id: ZoneId)
      requires Valid() && IsZone(zones, z) && forall k | k in spec :: WF(spec[k], counter)
      modifies this
      ensures Valid() && (St(), id) == ZoneTree.NewZone(old(St()), Some(z), spec)
    {
      id := NewZone(Some(z), spec);
    }

    /** `zone.bind(fn)` (lines 69-74): the child is forked here, once. */
    method Bind(z: ZoneId, fn: Value) returns (w: Value)
      requires counter == |zones| && IsZone(zones, z)
      modifies this
      ensures (St(), w) == ZoneSemantics.Bind(old(St()), z, fn)
      ensures old(Valid()) ==> Valid()
      ensures old(WF(fn, counter)) ==> WF(w, counter)
    {
      var child := NewZone(Some(z), map[]);
      w := Bound(child, fn);
    }

    /** `Zone.bindArguments(args)` (lines 8-15), in place, from the last entry to the first. */
    method BindArguments(args: array<Value>)
      requires counter == |zones| && IsZone(zones, current)
      modifies this, args
      ensures (St(), args[..]) == BindArgs(old(St()), old(args[..]))
      ensures old(Valid()) ==> Valid()
      ensures old(AllWF(args[..], counter)) ==> AllWF(args[..], counter)
    {
      ghost var st0 := St();
      ghost var a0 := args[..];
      var i := args.Length - 1;
      BindLoopInit(st0, a0);
      while i >= 0
        invariant -1 <= i < args.Length
        invariant current == st0.current && st0.counter <= counter
        invariant BindLoopInv(st0, a0, St(), args[..], i)
      {
        ghost var st := St();
        ghost var pre := args[..];
        BindLoopStep(st0, a0, st, pre, i);
        BindEntry(args, i);
        i := i - 1;
      }
      BindLoopDone(st0, a0, St(), args[..]);
      if old(Valid()) {
        ValidBindArgs(st0, a0);
      }
      if AllWF(a0, st0.counter) {
        BindArgsWF(st0, a0);
      }
    }

    /** One step of `bindArguments` (lines 10-12): entry `i`, when it is a function, is
        replaced by `g.zone.bind(args[i])`; otherwise nothing changes. */
    method BindEntry(args: array<Value>, i: nat)
      requires i < args.Length && counter == |zones| && IsZone(zones, current)
      modifies this, args
      ensures var x := old(args[i]);
        && St() == (if IsFunction(x) then ZoneSemantics.Bind(old(St()), old(current), x).0 else old(St()))
        && args[..] == old(args[..])[i := if IsFunction(x) then Bound(old(counter) + 1, x) else x]
    {
      if IsFunction(args[i]) {
        var w := Bind(current, args[i]);
        args[i] := w;
      }
    }

    /** `Zone.patchFn(obj, fnNames)` (lines 17-29), one name at a time. */
    method PatchFn(h: HostId, names: seq<string>)
      requires Valid() && h in hosts
      modifies this
      ensures Valid() && St() == Patch(old(St()), h, names)
    {
      ValidPatch(St(), h, names);
      var i := 0;
      while i < |names|
        invariant 0 <= i <= |names|
        invariant IsZone(zones, current) && h in hosts
        invariant Patch(old(St()), h, names) == Patch(St(), h, names[i..])
      {
        var name := names[i];
        assert names[i..][1..] == names[i + 1..];
        var original := HostEntry(hosts, h, name);
        if Truthy(original) {
          var cur := zones[current - 1];
          zones := zones[current - 1 := cur.(props := cur.props[name := Delegate(h, original)])];
          hosts := hosts[h := hosts[h][name := Forwarder(name)]];
        }
        i := i + 1;
      }
    }

    /** Calling the function value `f` with `args`: dispatch on what kind of function it is.
        Anything else is not callable and throws a TypeError. */
    method Call(f: Value, args: seq<Value>, fuel: nat) returns (out: Outcome)
      requires Valid() && WF(f, counter) && AllWF(args, counter)
      modifies this
      ensures (St(), out) == ZoneSemantics.Call(code, old(St()), f, args, fuel)
      decreases fuel, 1
    {
      if fuel == 0 {
        return OutOfFuel;
      }
      match f {
        case Fn(id) =>
          out := CallUser(id, args, fuel);
        case Bound(z, target) =>
          out := CallBound(z, target, args, fuel);
        case Delegate(h, original) =>
          out := CallDelegate(h, original, args, fuel);
        case Forwarder(name) =>
          out := CallForwarder(name, args, fuel);
        case _ =>
          out := Threw(NotCallable);
      }
    }

    /** An application function: its script runs with the cell as it is. */
    method CallUser(id: FnId, args: seq<Value>, fuel: nat) returns (out: Outcome)
      requires Valid() && AllWF(args, counter) && fuel > 0
      modifies this
      ensures (St(), out) == ZoneSemantics.Call(code, old(St()), Fn(id), args, fuel)
      decreases fuel, 0
    {
      ghost var st0 := St();
      ghost var st1 := st0.(trace := st0.trace + [UserCode(id, st0.current, args)]);
      ValidRecord(st0, current, st1.trace);
      trace := trace + [UserCode(id, current, args)];
      assert St() == st1;
      if id in code {
        out := Exec(code[id], args, fuel - 1);
        assert ZoneSemantics.Call(code, st0, Fn(id), args, fuel) == ZoneSemantics.Exec(code, st1, code[id], args, fuel - 1);
      } else {
        out := Returned(Undefined);
        assert ZoneSemantics.Call(code, st0, Fn(id), args, fuel) == (st1, Returned(Undefined));
      }
    }

    /** The body of `ZoneBoundFn` (lines 71-73): `zone.run(fn, this, arguments)` in the zone
        forked when the wrapper was made. */
    method CallBound(z: ZoneId, target: Value, args: seq<Value>, fuel: nat) returns (out: Outcome)
      requires Valid() && IsZone(zones, z) && WF(target, counter) && AllWF(args, counter) && fuel > 0
      modifies this
      ensures (St(), out) == ZoneSemantics.Call(code, old(St()), Bound(z, target), args, fuel)
      decreases fuel, 0
    {
      out := Run(z, target, args, fuel - 1);
    }

    /** The delegate `patchFn` stores on the zone (lines 21-23):
        `delegate.apply(obj, Zone.bindArguments(arguments))`. */
    method CallDelegate(h: HostId, original: Value, args: seq<Value>, fuel: nat) returns (out: Outcome)
      requires Valid() && WF(original, counter) && AllWF(args, counter) && fuel > 0
      modifies this
      ensures (St(), out) == ZoneSemantics.Call(code, old(St()), Delegate(h, original), args, fuel)
      decreases fuel, 0
    {
      ghost var st0 := St();
      DelegateStep(code, st0, h, original, args, fuel);
      var arguments := ArgumentsObject(args);
      BindArguments(arguments);
      assert St() == BindArgs(st0, args).0 && arguments[..] == BindArgs(st0, args).1;
      out := Call(original, arguments[..], fuel - 1);
    }

    /** The forwarder `patchFn` stores on the host (lines 24-26):
        `g.zone[name].apply(this, arguments)`, resolved on the zone current at call time. */
    method CallForwarder(name: string, args: seq<Value>, fuel: nat) returns (out: Outcome)
      requires Valid() && AllWF(args, counter) && fuel > 0
      modifies this
      ensures (St(), out) == ZoneSemantics.Call(code, old(St()), Forwarder(name), args, fuel)
      decreases fuel, 0
    {
      LookupWF(zones, counter, current, name);
      var target := Lookup(zones, current, name);
      out := Call(target, args, fuel - 1);
    }

    /** Running an application function's script. */
    method Exec(s: Script, args: seq<Value>, fuel: nat) returns (out: Outcome)
      requires Valid() && ScriptWF(s) && AllWF(args, counter)
      modifies this
      ensures (St(), out) == ZoneSemantics.Exec(code, old(St()), s, args, fuel)
      decreases fuel, 2, s
    {
      match s {
        case Return(e) =>
          out := Returned(Eval(hosts, e, args));
        case Throw(e) =>
          out := Threw(Eval(hosts, e, args));
        case Invoke(c, es, rest) =>
          ghost var st0 := St();
          EvalWF(St(), c, args);
          assert AllWF(EvalAll(hosts, es, args), counter) by {
            forall i | 0 <= i < |es| ensures WF(EvalAll(hosts, es, args)[i], counter) {
              EvalWF(St(), es[i], args);
            }
          }
          out := Call(Eval(hosts, c, args), EvalAll(hosts, es, args), fuel);
          if out.Returned? {
            out := Exec(rest, args, fuel);
          }
      }
    }

    /** `zone.run(fn, applyTo, applyWith)` (lines 45-67). */
    method Run(z: ZoneId, f: Value, args: seq<Value>, fuel: nat) returns (out: Outcome)
      requires Valid() && IsZone(zones, z) && WF(f, counter) && AllWF(args, counter)
      modifies this
      ensures (St(), out) == ZoneSemantics.Run(code, old(St()), z, f, args, fuel)
      decreases fuel, 4
    {
      ghost var st0 := St();
      var oldZone := current;
      current := z;
      var result := Undefined;
      var tried := TryBlock(z, f, args, fuel);
      if tried.OutOfFuel? {
        return OutOfFuel;
      }
      // catch
      if tried.Threw? {
        trace := trace + [Logged(tried.error)];
      } else {
        result := tried.value;
      }
      // finally
      var left := FinallyBlock(fuel);
      if !left.Returned? {
        return left;
      }
      assert (St(), Returned(result)) == Guarded(code, st0.(current := z), z, f, args, fuel);
      current := oldZone;
      out := Returned(result);
    }

    /** The `try` block of `run` (lines 54-57), with the cell already pointing at `z`. */
    method TryBlock(z: ZoneId, f: Value, args: seq<Value>, fuel: nat) returns (tried: Outcome)
      requires Valid() && current == z && WF(f, counter) && AllWF(args, counter)
      modifies this
      ensures (St(), tried) == ZoneSemantics.Try(code, old(St()), z, f, args, fuel)
      decreases fuel, 2
    {
      ghost var st0 := St();
      LookupWF(zones, counter, current, "onEnter");
      var enter := Lookup(zones, current, "onEnter");
      tried := Returned(Undefined);
      if Truthy(enter) {
        trace := trace + [EnterHook(current)];
        tried := Call(enter, [], fuel);
      }
      ghost var st1 := St();
      assert (st1, tried) ==
        if Truthy(enter) then ZoneSemantics.Call(code, st0.(trace := st0.trace + [EnterHook(z)]), enter, [], fuel)
        else (st0, Returned(Undefined));
      if tried.Returned? {
        trace := trace + [Apply(z, current)];
        tried := Call(f, args, fuel);
      }
    }

    /** The `finally` block of `run` up to the restore (lines 61-63): `onLeave` is read on
        the zone the cell holds now. */
    method FinallyBlock(fuel: nat) returns (left: Outcome)
      requires Valid()
      modifies this
      ensures (St(), left) == ZoneSemantics.Finally(code, old(St()), fuel)
      decreases fuel, 2
    {
      LookupWF(zones, counter, current, "onLeave");
      var leave := Lookup(zones, current, "onLeave");
      left := Returned(Undefined);
      if Truthy(leave) {
        trace := trace + [LeaveHook(current)];
        left := Call(leave, [], fuel);
      }
    }
  }

  /** A fresh array holding the arguments of a call, which `bindArguments` may rewrite. */
  /** `Object.keys(ZoneSpec).forEach(key => { zone[key] = ZoneSpec[key]; })` (lines 35-37):
      every key of `spec` is written over `props`, one at a time, in no particular order. */
  method CopyKeys(props: map<string, Value>, spec: map<string, Value>) returns (r: map<string, Value>)
    ensures r == props + spec
  {
    r := props;
    var todo := spec.Keys;
    while todo != {}
      invariant todo <= spec.Keys
      invariant forall k :: k in r <==> k in props || (k in spec && k !in todo)
      invariant forall k | k in r :: r[k] == if k in spec && k !in todo then spec[k] else props[k]
      decreases todo
    {
      var key :| key in todo;
      r := r[key := spec[key]];
      todo := todo - {key};
    }
    assert r == props + spec;
  }

  method ArgumentsObject(args: seq<Value>) returns (a: array<Value>)
    ensures fresh(a) && a[..] == args
  {
    a := new Value[|args|](i requires 0 <= i < |args| => args[i]);
  }

  /** A delegate call is a call of the original on the rebound arguments, in a state that
      keeps the invariant. */
  lemma DelegateStep(code: map<FnId, Script>, st: State, h: HostId, original: Value, args: seq<Value>, fuel: nat)
    requires CodeWF(code) && Valid(st) && WF(original, st.counter) && AllWF(args, st.counter) && fuel > 0
    ensures var b := BindArgs(st, args);
      && Valid(b.0) && WF(original, b.0.counter) && AllWF(b.1, b.0.counter)
      && ZoneSemantics.Call(code, st, Delegate(h, original), args, fuel) ==
         ZoneSemantics.Call(code, b.0, original, b.1, fuel - 1)
  {
    ValidBindArgs(st, args);
    BindArgsWF(st, args);
  }

  /** The loop invariant of `BindArguments`: the entries after `i` are final, the state
      is what binding them left, and binding the entries up to `i` from here ends where
      binding the whole list from the start does. */
  ghost predicate BindLoopInv(st0: State, a0: seq<Value>, st: State, cur: seq<Value>, i: int) {
    && -1 <= i < |a0| && |cur| == |a0| && st.counter == |st.zones| && st0.counter == |st0.zones|
    && cur[..i + 1] == a0[..i + 1]
    && BindArgs(st0, a0) == (BindArgs(st, a0[..i + 1]).0, BindArgs(st, a0[..i + 1]).1 + cur[i + 1..])
  }

  lemma BindLoopInit(st0: State, a0: seq<Value>)
    requires st0.counter == |st0.zones|
    ensures BindLoopInv(st0, a0, st0, a0, |a0| - 1)
  {
    assert a0[..|a0|] == a0;
    assert BindArgs(st0, a0).1 + a0[|a0|..] == BindArgs(st0, a0).1;
  }

  /** One iteration: entry `i` is bound (when it is a function) and the invariant moves
      down by one. */
  lemma BindLoopStep(st0: State, a0: seq<Value>, st: State, cur: seq<Value>, i: int)
    requires BindLoopInv(st0, a0, st, cur, i) && i >= 0
    ensures var x := cur[i];
      var st1 := if IsFunction(x) then ZoneSemantics.Bind(st, st.current, x).0 else st;
      BindLoopInv(st0, a0, st1, cur[i := if IsFunction(x) then Bound(st.counter + 1, x) else x], i - 1)
  {
    var x := cur[i];
    var st1 := if IsFunction(x) then ZoneSemantics.Bind(st, st.current, x).0 else st;
    var x' := if IsFunction(x) then Bound(st.counter + 1, x) else x;
    var cur' := cur[i := x'];
    assert a0[..i + 1][..i] == a0[..i] && a0[..i + 1][i] == x by {
      assert cur[..i + 1][i] == x;
    }
    BindArgsLast(st, a0[..i + 1]);
    var front := BindArgs(st1, a0[..i]);
    ConcatAssoc(front.1, [x'], cur[i + 1..]);
    assert cur'[i..] == [x'] + cur[i + 1..];
    assert cur'[..i] == a0[..i] by {
      assert cur'[..i] == cur[..i] == cur[..i + 1][..i];
    }
  }

  lemma BindLoopDone(st0: State, a0: seq<Value>, st: State, cur: seq<Value>)
    requires BindLoopInv(st0, a0, st, cur, -1)
    ensures BindArgs(st0, a0) == (st, cur)
  {
    assert a0[..0] == [] && cur[0..] == cur;
    assert BindArgs(st, []) == (st, []);
    assert [] + cur == cur;
  }
}
