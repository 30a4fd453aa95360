/** Properties of `run`, `bind`, `bindArguments` and `patchFn` (src/index.ts:8-29, 45-74)
    stated over the functions of ZoneSemantics. */
module ZoneProperties {
  import opened ZoneValues
  import opened ZoneTree
  import opened ZoneSemantics

  /** An application function whose body makes no call: it returns or throws at once. */
  predicate IsLeaf(code: map<FnId, Script>, v: Value) {
    v.Fn? && v.id in code && !code[v.id].Invoke?
  }

  /** What a leaf function gives back. */
  function LeafOutcome(code: map<FnId, Script>, hosts: map<HostId, map<string, Value>>, v: Value, args: seq<Value>): Outcome
    requires IsLeaf(code, v)
  {
    match code[v.id]
    case Return(e) => Returned(Eval(hosts, e, args))
    case Throw(e) => Threw(Eval(hosts, e, args))
  }

  /** Calling a leaf function records the call with the cell as it is and changes nothing
      else. */
  lemma CallLeaf(code: map<FnId, Script>, st: State, v: Value, args: seq<Value>, fuel: nat)
    requires CodeWF(code) && Valid(st) && AllWF(args, st.counter) && IsLeaf(code, v) && fuel >= 1
    ensures Call(code, st, v, args, fuel) ==
      (st.(trace := st.trace + [UserCode(v.id, st.current, args)]), LeafOutcome(code, st.hosts, v, args))
  {
    var st1 := st.(trace := st.trace + [UserCode(v.id, st.current, args)]);
    assert Call(code, st, v, args, fuel) == Exec(code, st1, code[v.id], args, fuel - 1);
  }

  /** A hook slot that is either empty (not truthy) or holds a leaf function. */
  predicate LeafHook(code: map<FnId, Script>, v: Value) {
    !Truthy(v) || IsLeaf(code, v)
  }

  /** The hooks of zone `z` and the body make no further call. */
  predicate LeafSetting(code: map<FnId, Script>, zones: seq<ZoneRec>, z: ZoneId, f: Value)
    requires ParentsBelow(zones) && IsZone(zones, z)
  {
    IsLeaf(code, f) && LeafHook(code, Lookup(zones, z, "onEnter")) && LeafHook(code, Lookup(zones, z, "onLeave"))
  }

  /** Calling the hook `name` of zone `z` if it is truthy: the events and the outcome. */
  function HookPart(code: map<FnId, Script>, zones: seq<ZoneRec>, hosts: map<HostId, map<string, Value>>,
                    z: ZoneId, name: string, mark: Event): (seq<Event>, Outcome)
    requires ParentsBelow(zones) && IsZone(zones, z) && LeafHook(code, Lookup(zones, z, name))
  {
    var hook := Lookup(zones, z, name);
    if Truthy(hook) then ([mark, UserCode(hook.id, z, [])], LeafOutcome(code, hosts, hook, []))
    else ([], Returned(Undefined))
  }

  /** The `try` block: `onEnter`, then the body if `onEnter` returned. */
  function TryPart(code: map<FnId, Script>, zones: seq<ZoneRec>, hosts: map<HostId, map<string, Value>>,
                   z: ZoneId, f: Value, args: seq<Value>): (seq<Event>, Outcome)
    requires ParentsBelow(zones) && IsZone(zones, z) && LeafSetting(code, zones, z, f)
  {
    var (e1, entered) := HookPart(code, zones, hosts, z, "onEnter", EnterHook(z));
    if entered.Returned? then (e1 + [Apply(z, z), UserCode(f.id, z, args)], LeafOutcome(code, hosts, f, args))
    else (e1, entered)
  }

  /** The whole of `run` (lines 50-66) when the hooks and the body make no further call,
      written out event by event: `onEnter` (when the zone reads a truthy one) is called
      first; the body is applied only if `onEnter` returned; an exception from either is
      logged and swallowed; `onLeave` (when truthy) is called in every case; `run` then
      restores the cell and returns the body's value, or `undefined` if something threw.
      If `onLeave` throws, that exception is the outcome and the cell is left at `z`.
      Every hook and the body run with the cell holding `z`. */
  function LeafRun(code: map<FnId, Script>, st: State, z: ZoneId, f: Value, args: seq<Value>): (State, Outcome)
    requires ParentsBelow(st.zones) && IsZone(st.zones, z) && LeafSetting(code, st.zones, z, f)
  {
    var (e12, body) := TryPart(code, st.zones, st.hosts, z, f, args);
    var e3 := if body.Threw? then [Logged(body.error)] else [];
    var (e4, left) := HookPart(code, st.zones, st.hosts, z, "onLeave", LeaveHook(z));
    var events := e12 + e3 + e4;
    if left.Returned? then (st.(trace := st.trace + events), Returned(if body.Returned? then body.value else Undefined))
    else (st.(current := z, trace := st.trace + events), left)
  }

  lemma TryLeaves(code: map<FnId, Script>, st: State, z: ZoneId, f: Value, args: seq<Value>, fuel: nat)
    requires CodeWF(code) && Valid(st) && st.current == z && AllWF(args, st.counter) && fuel >= 1
    requires LeafSetting(code, st.zones, z, f)
    ensures var t := TryPart(code, st.zones, st.hosts, z, f, args);
      Try(code, st, z, f, args, fuel) == (st.(trace := st.trace + t.0), t.1)
  {
    var enter := Lookup(st.zones, z, "onEnter");
    var (e1, entered) := HookPart(code, st.zones, st.hosts, z, "onEnter", EnterHook(z));
    var sE := st.(trace := st.trace + [EnterHook(z)]);
    if Truthy(enter) {
      CallLeaf(code, sE, enter, [], fuel);
      assert sE.trace + [UserCode(enter.id, z, [])] == st.trace + e1;
    }
    if !Truthy(enter) {
      assert st.trace + e1 == st.trace;
    }
    var s1 := st.(trace := st.trace + e1);
    var sA := s1.(trace := s1.trace + [Apply(z, z)]);
    if entered.Returned? {
      CallLeaf(code, sA, f, args, fuel);
      assert sA.trace + [UserCode(f.id, z, args)] == st.trace + (e1 + [Apply(z, z), UserCode(f.id, z, args)]);
    }
  }

  lemma LeaveLeaf(code: map<FnId, Script>, st: State, fuel: nat)
    requires CodeWF(code) && Valid(st) && fuel >= 1 && LeafHook(code, Lookup(st.zones, st.current, "onLeave"))
    ensures var h := HookPart(code, st.zones, st.hosts, st.current, "onLeave", LeaveHook(st.current));
      Finally(code, st, fuel) == (st.(trace := st.trace + h.0), h.1)
  {
    var leave := Lookup(st.zones, st.current, "onLeave");
    if Truthy(leave) {
      var sL := st.(trace := st.trace + [LeaveHook(st.current)]);
      CallLeaf(code, sL, leave, [], fuel);
      assert sL.trace + [UserCode(leave.id, st.current, [])] == st.trace + [LeaveHook(st.current), UserCode(leave.id, st.current, [])];
    } else {
      assert st.trace + [] == st.trace;
    }
  }

  /** `run` with leaf hooks and a leaf body behaves exactly as `LeafRun` describes. */
  lemma RunLeaves(code: map<FnId, Script>, st: State, z: ZoneId, f: Value, args: seq<Value>, fuel: nat)
    requires CodeWF(code) && Valid(st) && IsZone(st.zones, z) && AllWF(args, st.counter) && fuel >= 1
    requires LeafSetting(code, st.zones, z, f)
    ensures Run(code, st, z, f, args, fuel) == LeafRun(code, st, z, f, args)
  {
    var s0 := st.(current := z);
    TryLeaves(code, s0, z, f, args, fuel);
    var (e12, body) := TryPart(code, st.zones, st.hosts, z, f, args);
    var s2 := s0.(trace := st.trace + e12);
    var e3 := if body.Threw? then [Logged(body.error)] else [];
    var s3 := s0.(trace := st.trace + e12 + e3);
    assert s3 == if body.Threw? then s2.(trace := s2.trace + [Logged(body.error)]) else s2;
    LeaveLeaf(code, s3, fuel);
    var (e4, left) := HookPart(code, st.zones, st.hosts, z, "onLeave", LeaveHook(z));
    assert st.trace + e12 + e3 + e4 == st.trace + (e12 + e3 + e4);
  }

  /** The state in which `run` applies its body once an absent or leaf `onEnter` has
      returned: the cell holds `z`, and the trace has grown by the `onEnter` events and the
      application of the body. */
  function BodyStart(code: map<FnId, Script>, st: State, z: ZoneId): State
    requires ParentsBelow(st.zones) && IsZone(st.zones, z) && LeafHook(code, Lookup(st.zones, z, "onEnter"))
  {
    st.(current := z, trace := st.trace + HookPart(code, st.zones, st.hosts, z, "onEnter", EnterHook(z)).0 + [Apply(z, z)])
  }

  /** The try block with an absent or leaf `onEnter` that returns: the body is called in
      `BodyStart`. */
  lemma TryAnyBody(code: map<FnId, Script>, st: State, z: ZoneId, f: Value, args: seq<Value>, fuel: nat)
    requires CodeWF(code) && Valid(st) && IsZone(st.zones, z) && WF(f, st.counter) && AllWF(args, st.counter) && fuel >= 1
    requires LeafHook(code, Lookup(st.zones, z, "onEnter"))
    requires HookPart(code, st.zones, st.hosts, z, "onEnter", EnterHook(z)).1.Returned?
    ensures Valid(st.(current := z)) && Valid(BodyStart(code, st, z))
    ensures Try(code, st.(current := z), z, f, args, fuel) == Call(code, BodyStart(code, st, z), f, args, fuel)
  {
    var s0 := st.(current := z);
    ValidRecord(st, z, st.trace);
    var enter := Lookup(st.zones, z, "onEnter");
    var e1 := HookPart(code, st.zones, st.hosts, z, "onEnter", EnterHook(z)).0;
    if Truthy(enter) {
      var sE := s0.(trace := st.trace + [EnterHook(z)]);
      ValidRecord(st, z, sE.trace);
      CallLeaf(code, sE, enter, [], fuel);
      assert sE.trace + [UserCode(enter.id, z, [])] == st.trace + e1;
    } else {
      assert st.trace + e1 == st.trace;
    }
    ValidRecord(st, z, BodyStart(code, st, z).trace);
  }

  /** The finally block, entered with the cell at `z` in a state grown from `st`: the
      `onLeave` that `z` read in `st`, absent or a leaf, is what runs. */
  lemma FinallyAfter(code: map<FnId, Script>, st: State, s: State, z: ZoneId, fuel: nat)
    requires CodeWF(code) && Valid(st) && Valid(s) && IsZone(st.zones, z) && s.current == z && fuel >= 1
    requires st.zones <= s.zones && s.hosts == st.hosts
    requires LeafHook(code, Lookup(st.zones, z, "onLeave"))
    ensures var h := HookPart(code, st.zones, st.hosts, z, "onLeave", LeaveHook(z));
      Finally(code, s, fuel) == (s.(trace := s.trace + h.0), h.1)
  {
    LookupStable(st.zones, s.zones, z, "onLeave");
    LeaveLeaf(code, s, fuel);
  }

  /** Body returns (whatever it calls on the way): `run` returns the body's value with the
      cell restored, and the events are those of `onEnter`, the application of the body in
      `z`, the body's own, and those of `onLeave`, in that order. */
  lemma RunReturnsBody(code: map<FnId, Script>, st: State, z: ZoneId, f: Value, args: seq<Value>, fuel: nat)
    requires CodeWF(code) && Valid(st) && IsZone(st.zones, z) && WF(f, st.counter) && AllWF(args, st.counter) && fuel >= 1
    requires LeafHook(code, Lookup(st.zones, z, "onEnter")) && LeafHook(code, Lookup(st.zones, z, "onLeave"))
    requires HookPart(code, st.zones, st.hosts, z, "onEnter", EnterHook(z)).1.Returned?
    requires HookPart(code, st.zones, st.hosts, z, "onLeave", LeaveHook(z)).1.Returned?
    ensures Valid(BodyStart(code, st, z))
    ensures var b := Call(code, BodyStart(code, st, z), f, args, fuel);
      var r := Run(code, st, z, f, args, fuel);
      b.1.Returned? ==>
        && r.1 == b.1
        && r.0.current == st.current
        && r.0.zones == b.0.zones && r.0.hosts == b.0.hosts
        && r.0.trace == b.0.trace + HookPart(code, st.zones, st.hosts, z, "onLeave", LeaveHook(z)).0
  {
    TryAnyBody(code, st, z, f, args, fuel);
    var b := Call(code, BodyStart(code, st, z), f, args, fuel);
    if b.1.Returned? {
      FinallyAfter(code, st, b.0, z, fuel);
    }
  }

  /** Body throws (whatever it called first) and leaves the cell at `z`: the exception is
      logged and swallowed, `onLeave` still runs, and `run` returns `undefined` with the
      cell restored. */
  lemma RunBodyThrows(code: map<FnId, Script>, st: State, z: ZoneId, f: Value, args: seq<Value>, fuel: nat)
    requires CodeWF(code) && Valid(st) && IsZone(st.zones, z) && WF(f, st.counter) && AllWF(args, st.counter) && fuel >= 1
    requires LeafHook(code, Lookup(st.zones, z, "onEnter")) && LeafHook(code, Lookup(st.zones, z, "onLeave"))
    requires HookPart(code, st.zones, st.hosts, z, "onEnter", EnterHook(z)).1.Returned?
    requires HookPart(code, st.zones, st.hosts, z, "onLeave", LeaveHook(z)).1.Returned?
    ensures Valid(BodyStart(code, st, z))
    ensures var b := Call(code, BodyStart(code, st, z), f, args, fuel);
      var r := Run(code, st, z, f, args, fuel);
      b.1.Threw? && b.0.current == z ==>
        && r.1 == Returned(Undefined)
        && r.0.current == st.current
        && r.0.zones == b.0.zones && r.0.hosts == b.0.hosts
        && r.0.trace == b.0.trace + [Logged(b.1.error)] + HookPart(code, st.zones, st.hosts, z, "onLeave", LeaveHook(z)).0
  {
    TryAnyBody(code, st, z, f, args, fuel);
    var b := Call(code, BodyStart(code, st, z), f, args, fuel);
    if b.1.Threw? && b.0.current == z {
      var s2 := b.0.(trace := b.0.trace + [Logged(b.1.error)]);
      ValidRecord(b.0, z, s2.trace);
      FinallyAfter(code, st, s2, z, fuel);
    }
  }

  /** `onEnter` throws: the body, whatever it is, is never applied, `onLeave` still runs,
      the exception is logged and swallowed, and `run` returns `undefined` with the cell
      restored and no zone or host changed. */
  lemma RunEnterThrows(code: map<FnId, Script>, st: State, z: ZoneId, f: Value, args: seq<Value>, fuel: nat)
    requires CodeWF(code) && Valid(st) && IsZone(st.zones, z) && WF(f, st.counter) && AllWF(args, st.counter) && fuel >= 1
    requires var enter := Lookup(st.zones, z, "onEnter"); Truthy(enter) && IsLeaf(code, enter) && LeafOutcome(code, st.hosts, enter, []).Threw?
    requires LeafHook(code, Lookup(st.zones, z, "onLeave"))
    requires HookPart(code, st.zones, st.hosts, z, "onLeave", LeaveHook(z)).1.Returned?
    ensures var r := Run(code, st, z, f, args, fuel);
      var enter := Lookup(st.zones, z, "onEnter");
      && r.1 == Returned(Undefined)
      && r.0.current == st.current
      && r.0.zones == st.zones && r.0.hosts == st.hosts
      && r.0.trace == st.trace + [EnterHook(z), UserCode(enter.id, z, []), Logged(LeafOutcome(code, st.hosts, enter, []).error)]
                      + HookPart(code, st.zones, st.hosts, z, "onLeave", LeaveHook(z)).0
  {
    var s0 := st.(current := z);
    var enter := Lookup(st.zones, z, "onEnter");
    var e := LeafOutcome(code, st.hosts, enter, []).error;
    var sE := s0.(trace := st.trace + [EnterHook(z)]);
    ValidRecord(st, z, sE.trace);
    CallLeaf(code, sE, enter, [], fuel);
    var s1 := s0.(trace := st.trace + [EnterHook(z), UserCode(enter.id, z, [])]);
    assert sE.trace + [UserCode(enter.id, z, [])] == s1.trace;
    assert Try(code, s0, z, f, args, fuel) == (s1, Threw(e));
    var s2 := s0.(trace := st.trace + [EnterHook(z), UserCode(enter.id, z, []), Logged(e)]);
    assert s2 == s1.(trace := s1.trace + [Logged(e)]);
    ValidRecord(st, z, s2.trace);
    FinallyAfter(code, st, s2, z, fuel);
  }

  /** `onLeave` throws after a body that returned, or threw with the cell still at `z`:
      its exception escapes `run`, and the restore at line 64 is skipped, so the cell is
      left holding `z`. */
  lemma RunLeaveThrows(code: map<FnId, Script>, st: State, z: ZoneId, f: Value, args: seq<Value>, fuel: nat)
    requires CodeWF(code) && Valid(st) && IsZone(st.zones, z) && WF(f, st.counter) && AllWF(args, st.counter) && fuel >= 1
    requires LeafHook(code, Lookup(st.zones, z, "onEnter"))
    requires HookPart(code, st.zones, st.hosts, z, "onEnter", EnterHook(z)).1.Returned?
    requires var leave := Lookup(st.zones, z, "onLeave"); Truthy(leave) && IsLeaf(code, leave) && LeafOutcome(code, st.hosts, leave, []).Threw?
    ensures Valid(BodyStart(code, st, z))
    ensures var b := Call(code, BodyStart(code, st, z), f, args, fuel);
      var r := Run(code, st, z, f, args, fuel);
      (b.1.Returned? || (b.1.Threw? && b.0.current == z)) ==>
        && r.1 == LeafOutcome(code, st.hosts, Lookup(st.zones, z, "onLeave"), [])
        && r.0.current == z
  {
    TryAnyBody(code, st, z, f, args, fuel);
    var b := Call(code, BodyStart(code, st, z), f, args, fuel);
    if b.1.Returned? {
      FinallyAfter(code, st, b.0, z, fuel);
    } else if b.1.Threw? && b.0.current == z {
      var s2 := b.0.(trace := b.0.trace + [Logged(b.1.error)]);
      ValidRecord(b.0, z, s2.trace);
      FinallyAfter(code, st, s2, z, fuel);
    }
  }

  /** The wrapper made by `bind` (lines 71-73) does the same thing whatever zone the cell
      holds when it is called: the same outcome and the same zones, hosts and events; only
      the cell it restores on a normal return differs, and that is the caller's. */
  lemma BoundIgnoresCell(code: map<FnId, Script>, st: State, c1: ZoneId, c2: ZoneId,
                         z: ZoneId, t: Value, args: seq<Value>, fuel: nat)
    requires CodeWF(code) && Valid(st) && IsZone(st.zones, c1) && IsZone(st.zones, c2) && IsZone(st.zones, z)
    requires WF(t, st.counter) && AllWF(args, st.counter)
    ensures Valid(st.(current := c1)) && Valid(st.(current := c2))
    ensures var r1 := Call(code, st.(current := c1), Bound(z, t), args, fuel);
      var r2 := Call(code, st.(current := c2), Bound(z, t), args, fuel);
      && r1.1 == r2.1
      && r1.0.counter == r2.0.counter && r1.0.zones == r2.0.zones
      && r1.0.hosts == r2.0.hosts && r1.0.trace == r2.0.trace
      && (r1.1.Returned? ==> r1.0.current == c1 && r2.0.current == c2)
  {
    ValidRecord(st, c1, st.trace);
    ValidRecord(st, c2, st.trace);
    assert st.(current := c1).(current := z) == st.(current := c2).(current := z);
  }

  /** Any zone forked after a `bind` (by a later `bind`, say) has a larger index than the
      zone that `bind` forked: two wrappers never share a zone. */
  lemma BindFresh(st: State, z: ZoneId, fn: Value, st': State, z': ZoneId, fn': Value)
    requires st.counter == |st.zones| && st'.counter == |st'.zones|
    requires Grows(Bind(st, z, fn).0, st')
    ensures Bind(st', z', fn').1.zone > Bind(st, z, fn).1.zone
  {
  }

  lemma {:induction false} FnCountConcat(a: seq<Value>, b: seq<Value>)
    ensures FnCount(a + b) == FnCount(a) + FnCount(b)
    decreases |b|
  {
    if b == [] {
      assert a + b == a;
    } else {
      var b' := b[..|b| - 1];
      assert (a + b)[..|a + b| - 1] == a + b';
      FnCountConcat(a, b');
    }
  }

  lemma FnCountCons(x: Value, r: seq<Value>)
    ensures FnCount([x] + r) == (if IsFunction(x) then 1 else 0) + FnCount(r)
  {
    FnCountConcat([x], r);
    assert [x][..0] == [];
  }

  /** Function entries counted from a later position are fewer, and at least one when
      that position holds a function. */
  lemma FnCountLater(args: seq<Value>, i: nat, j: nat)
    requires i < j < |args| && IsFunction(args[i]) && IsFunction(args[j])
    ensures 1 <= FnCount(args[j..]) < FnCount(args[i..])
  {
    var a := args[i..j];
    var b := args[j..];
    assert FnCount(args[i..]) == FnCount(a) + FnCount(b) by {
      assert args[i..] == a + b;
      FnCountConcat(a, b);
    }
    assert FnCount(a) >= 1 by {
      assert a == [args[i]] + args[i + 1..j];
      FnCountCons(args[i], args[i + 1..j]);
    }
    assert FnCount(b) >= 1 by {
      assert b == [args[j]] + args[j + 1..];
      FnCountCons(args[j], args[j + 1..]);
    }
  }

  /** `bindArguments` handles later entries first, so of two function entries the later
      one is bound to the zone with the smaller index; both zones are new. */
  lemma BindArgsOrder(st: State, args: seq<Value>, i: nat, j: nat)
    requires st.counter == |st.zones| && i < j < |args| && IsFunction(args[i]) && IsFunction(args[j])
    ensures var r := BindArgs(st, args);
      && r.1[i].Bound? && r.1[j].Bound?
      && st.counter < r.1[j].zone < r.1[i].zone <= r.0.counter
  {
    BindArgsEntries(st, args, i);
    BindArgsEntries(st, args, j);
    FnCountLater(args, i, j);
    FnCountSuffix(args, i);
  }

  /** The forwarder `patchFn` leaves on the host (lines 24-26) calls what the zone current
      at call time reads under the name; when that is a delegate (lines 21-23), the
      arguments are rebound with `bindArguments` in that zone and the original is called
      with them. */
  lemma ForwarderCallsDelegate(code: map<FnId, Script>, st: State, name: string, h: HostId, orig: Value,
                               args: seq<Value>, fuel: nat)
    requires CodeWF(code) && Valid(st) && AllWF(args, st.counter) && fuel >= 2
    requires Lookup(st.zones, st.current, name) == Delegate(h, orig)
    ensures var b := BindArgs(st, args);
      && Valid(b.0) && WF(orig, b.0.counter) && AllWF(b.1, b.0.counter)
      && Call(code, st, Forwarder(name), args, fuel) == Call(code, b.0, orig, b.1, fuel - 2)
  {
    LookupWF(st.zones, st.counter, st.current, name);
    ValidBindArgs(st, args);
    BindArgsWF(st, args);
  }

  /** Calling a patched host entry: after `patchFn(h, names)` with `name` listed once and
      a truthy original, the host holds a forwarder, and calling it with the cell still at
      the zone current at patch time rebinds the arguments and calls the original. */
  lemma PatchedCall(code: map<FnId, Script>, st: State, h: HostId, names: seq<string>, name: string,
                    args: seq<Value>, fuel: nat)
    requires CodeWF(code) && Valid(st) && h in st.hosts && AllWF(args, st.counter) && fuel >= 2
    requires NoDuplicates(names) && name in names && Truthy(HostEntry(st.hosts, h, name))
    ensures var st' := Patch(st, h, names);
      && Valid(st') && AllWF(args, st'.counter) && HostEntry(st'.hosts, h, name) == Forwarder(name)
      && var b := BindArgs(st', args);
      && Valid(b.0) && WF(HostEntry(st.hosts, h, name), b.0.counter) && AllWF(b.1, b.0.counter)
      && Call(code, st', Forwarder(name), args, fuel) == Call(code, b.0, HostEntry(st.hosts, h, name), b.1, fuel - 2)
  {
    var st' := Patch(st, h, names);
    ValidPatch(st, h, names);
    PatchHost(st, h, names, name);
    PatchZone(st, h, names, name);
    assert Lookup(st'.zones, st'.current, name) == Delegate(h, HostEntry(st.hosts, h, name));
    ForwarderCallsDelegate(code, st', name, h, HostEntry(st.hosts, h, name), args, fuel);
  }

  /** When the current zone reads, under `name`, a delegate whose original is the forwarder
      for that same name, calling the forwarder never finishes: each round binds the
      arguments and comes back to the same forwarder in the same zone. */
  lemma {:induction false} ForwardingLoop(code: map<FnId, Script>, st: State, h: HostId, name: string,
                                          args: seq<Value>, fuel: nat)
    requires CodeWF(code) && Valid(st) && AllWF(args, st.counter)
    requires Lookup(st.zones, st.current, name) == Delegate(h, Forwarder(name))
    ensures Call(code, st, Forwarder(name), args, fuel).1 == OutOfFuel
    decreases fuel
  {
    if fuel >= 2 {
      ForwarderCallsDelegate(code, st, name, h, Forwarder(name), args, fuel);
      var b := BindArgs(st, args);
      LookupStable(st.zones, b.0.zones, st.current, name);
      ForwardingLoop(code, b.0, h, name, b.1, fuel - 2);
    } else if fuel == 1 {
      LookupWF(st.zones, st.counter, st.current, name);
      assert Call(code, st, Forwarder(name), args, fuel) == Call(code, st, Delegate(h, Forwarder(name)), args, 0);
    }
  }

  /** Patching the same name twice with the cell on the same zone (nothing at line 19
      guards against it): the second delegate captures the first forwarder, and calling the
      host entry then never finishes. */
  lemma PatchTwiceLoops(code: map<FnId, Script>, st: State, h: HostId, name: string,
                        args: seq<Value>, fuel: nat)
    requires CodeWF(code) && Valid(st) && h in st.hosts && AllWF(args, st.counter)
    requires Truthy(HostEntry(st.hosts, h, name))
    ensures var st1 := Patch(st, h, [name]);
      && Valid(st1) && h in st1.hosts
      && var st2 := Patch(st1, h, [name]);
      && Valid(st2) && AllWF(args, st2.counter) && HostEntry(st2.hosts, h, name) == Forwarder(name)
      && name in CurrentProps(st2) && CurrentProps(st2)[name] == Delegate(h, Forwarder(name))
      && Call(code, st2, Forwarder(name), args, fuel).1 == OutOfFuel
  {
    var st1 := Patch(st, h, [name]);
    ValidPatch(st, h, [name]);
    PatchHost(st, h, [name], name);
    var st2 := Patch(st1, h, [name]);
    ValidPatch(st1, h, [name]);
    PatchHost(st1, h, [name], name);
    PatchZone(st1, h, [name], name);
    assert Lookup(st2.zones, st2.current, name) == Delegate(h, Forwarder(name));
    ForwardingLoop(code, st2, h, name, args, fuel);
  }
}
