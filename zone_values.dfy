/** The values, zone records and runtime state shared by every part of the zone model.

    A zone is identified by the value of the process-wide counter `Zone.index` at the
    moment it was built (src/index.ts:6, 33), so a `ZoneId` is a positive number and a
    zone's parent always has a smaller one.  Host objects (the global object on which
    `setTimeout` lives, or any other object handed to `patchFn`) are numbered too, and so
    are the plain functions of the application, whose behaviour is given by a script
    (see `Script`). */
module ZoneValues {

  type ZoneId = nat
  type HostId = nat
  type FnId = nat

  datatype Option<T> = None | Some(value: T)

  /** The JavaScript values the core stores, passes and tests.  Objects other than zones
      and functions are not distinguished from one another (`Obj`).  The last four
      constructors are the callables: a plain function of the application, the
      `ZoneBoundFn` wrapper made by `bind`, the delegate that `patchFn` stores on a zone,
      and the forwarder that `patchFn` stores on the host object. */
  datatype Value =
    | Undefined
    | Null
    | Bool(b: bool)
    | Num(n: int)
    | Str(s: string)
    | Obj
    | ZoneRef(zone: ZoneId)
    | Fn(id: FnId)
    | Bound(zone: ZoneId, target: Value)
    | Delegate(host: HostId, original: Value)
    | Forwarder(name: string)

  /** JavaScript truthiness, as used by `if (delegate)` and `if (g.zone.onEnter)`. */
  predicate Truthy(v: Value) {
    match v
    case Undefined => false
    case Null => false
    case Bool(b) => b
    case Num(n) => n != 0
    case Str(s) => s != ""
    case _ => true
  }

  /** `typeof v === 'function'`. */
  predicate IsFunction(v: Value) {
    v.Fn? || v.Bound? || v.Delegate? || v.Forwarder?
  }

  /** The error thrown when something that is not a function is called
      (`x.apply` on a value without an `apply` method). */
  const NotCallable: Value := Str("TypeError: not a function")

  /** The largest zone index a value refers to (0 if it refers to none). */
  function MaxRef(v: Value): nat {
    match v
    case ZoneRef(z) => z
    case Bound(z, t) => if z < MaxRef(t) then MaxRef(t) else z
    case Delegate(_, o) => MaxRef(o)
    case _ => 0
  }

  /** Whether a value refers to the non-index 0. */
  predicate RefersToZero(v: Value) {
    match v
    case ZoneRef(z) => z == 0
    case Bound(z, t) => z == 0 || RefersToZero(t)
    case Delegate(_, o) => RefersToZero(o)
    case _ => false
  }

  /** A value refers only to zones that have been built when the counter reads `counter`
      (indices 1 to `counter`).  JavaScript cannot forge a reference, so every value the
      program holds is of this kind. */
  predicate WF(v: Value, counter: nat) {
    !RefersToZero(v) && MaxRef(v) <= counter
  }

  predicate AllWF(vs: seq<Value>, counter: nat) {
    forall i | 0 <= i < |vs| :: WF(vs[i], counter)
  }

  /** One zone object: the zone it was chained to with `Object.create` (none for a zone
      built without a parent) and its own properties. */
  datatype ZoneRec = ZoneRec(parent: Option<ZoneId>, props: map<string, Value>)

  /** How the behaviour of an application function is described: an expression is a
      literal, one of the call's arguments (`undefined` past the end, as in JavaScript), or
      an entry read from a host object at that moment. */
  datatype Expr = Lit(v: Value) | Arg(i: nat) | HostGet(host: HostId, name: string)

  /** A function body calls other functions one after the other and then returns or throws.
      An exception thrown by a call it makes is not caught: it ends the body with that
      exception. */
  datatype Script =
    | Return(result: Expr)
    | Throw(error: Expr)
    | Invoke(callee: Expr, args: seq<Expr>, rest: Script)

  /** The application's code is written before any zone exists, so a literal in a script
      refers to no zone (a zone reaches a script only through its arguments or a host entry). */
  predicate ExprWF(e: Expr) {
    e.Lit? ==> WF(e.v, 0)
  }

  predicate ScriptWF(s: Script) {
    match s
    case Return(e) => ExprWF(e)
    case Throw(e) => ExprWF(e)
    case Invoke(c, es, rest) =>
      ExprWF(c) && (forall i | 0 <= i < |es| :: ExprWF(es[i])) && ScriptWF(rest)
  }

  predicate CodeWF(code: map<FnId, Script>) {
    forall f | f in code :: ScriptWF(code[f])
  }

  /** How a call ends: a returned value, a thrown value, or (model only) not within the
      number of nested calls allowed; the last stands for a computation that does not end
      in time, such as the endless forwarding after a name is patched twice. */
  datatype Outcome = Returned(value: Value) | Threw(error: Value) | OutOfFuel

  /** What the model records as it goes.  `Logged` is the `console.error` of a caught
      exception; the others mark the points where a hook or a body is called, with the
      value the current-zone cell holds at that point. */
  datatype Event =
    | EnterHook(cell: ZoneId)
    | Apply(running: ZoneId, cell: ZoneId)
    | Logged(error: Value)
    | LeaveHook(cell: ZoneId)
    | UserCode(fn: FnId, cell: ZoneId, args: seq<Value>)

  /** The whole mutable state of the runtime: the static counter `Zone.index`, the cell
      `g.zone`, every zone object in the order they were built (the zone with index `z` is
      `zones[z - 1]`), every host object, and what has happened so far. */
  datatype State = State(
    counter: nat,
    current: ZoneId,
    zones: seq<ZoneRec>,
    hosts: map<HostId, map<string, Value>>,
    trace: seq<Event>)

  /** `z` is the index of a zone of `zones`. */
  predicate IsZone(zones: seq<ZoneRec>, z: ZoneId) {
    1 <= z <= |zones|
  }

  /** Every zone's parent exists and was built before it. */
  predicate ParentsBelow(zones: seq<ZoneRec>) {
    forall i | 0 <= i < |zones| && zones[i].parent.Some? :: 1 <= zones[i].parent.value <= i
  }

  /** Every property of every zone and every host entry refers only to existing zones. */
  predicate PropsWF(zones: seq<ZoneRec>, counter: nat) {
    forall i, k | 0 <= i < |zones| && k in zones[i].props :: WF(zones[i].props[k], counter)
  }

  predicate HostsWF(hosts: map<HostId, map<string, Value>>, counter: nat) {
    forall h, k | h in hosts && k in hosts[h] :: WF(hosts[h][k], counter)
  }

  /** The invariant the runtime keeps once the root zone exists: one zone was built per
      counter step, parents come first, the cell holds a zone, and no value refers to a zone
      that does not exist. */
  predicate Valid(st: State) {
    && st.counter == |st.zones|
    && ParentsBelow(st.zones)
    && IsZone(st.zones, st.current)
    && PropsWF(st.zones, st.counter)
    && HostsWF(st.hosts, st.counter)
  }
}
