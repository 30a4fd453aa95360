/** Zone construction and property lookup (src/index.ts:31-43).

    A zone built with a parent is `Object.create(parent)`, so reading a property on it
    looks at its own properties first and then asks its parent; that is `Lookup`.
    Construction stamps the zone with `index = ++Zone.index` and `parentZone`, then copies
    the spec's keys on top (so a spec key named `index` or `parentZone` wins). */
module ZoneTree {
  import opened ZoneValues

  /** Prototype-chain property read: own property, else the parent's, else `undefined`.
      Whatever it finds is an own property of `z` or of a zone built before it. */
  function Lookup(zones: seq<ZoneRec>, z: ZoneId, key: string): (v: Value)
    requires ParentsBelow(zones) && IsZone(zones, z)
    ensures v == Undefined || OwnedUpTo(zones, z, key, v)
    decreases z
  {
    if key in zones[z - 1].props then zones[z - 1].props[key]
    else match zones[z - 1].parent
      case None => Undefined
      case Some(p) =>
        var v := Lookup(zones, p, key);
        if v != Undefined then OwnedUpToMonotone(zones, p, z, key, v); v else v
  }

  /** One of the zones with index at most `n` owns `key` with value `v`. */
  predicate OwnedUpTo(zones: seq<ZoneRec>, n: nat, key: string, v: Value)
    requires n <= |zones|
    decreases n
  {
    n > 0 && ((key in zones[n - 1].props && zones[n - 1].props[key] == v) || OwnedUpTo(zones, n - 1, key, v))
  }

  lemma {:induction false} OwnedUpToMonotone(zones: seq<ZoneRec>, m: nat, n: nat, key: string, v: Value)
    requires m <= n <= |zones| && OwnedUpTo(zones, m, key, v)
    ensures OwnedUpTo(zones, n, key, v)
    decreases n
  {
    if m < n {
      OwnedUpToMonotone(zones, m, n - 1, key, v);
    }
  }

  /** The prototype chain of `z`: `z`, its parent, its grandparent, ..., up to a zone built
      without a parent. */
  function Chain(zones: seq<ZoneRec>, z: ZoneId): (c: seq<ZoneId>)
    requires ParentsBelow(zones) && IsZone(zones, z)
    ensures |c| >= 1 && c[0] == z
    ensures forall i | 0 <= i < |c| :: 1 <= c[i] <= |zones|
    ensures IsZone(zones, c[|c| - 1]) && zones[c[|c| - 1] - 1].parent.None?
    decreases z
  {
    match zones[z - 1].parent
    case None => [z]
    case Some(p) => [z] + Chain(zones, p)
  }

  /** No zone of the chain has a larger index than the zone it starts from ... */
  lemma {:induction false} ChainBelow(zones: seq<ZoneRec>, z: ZoneId, k: nat)
    requires ParentsBelow(zones) && IsZone(zones, z) && k < |Chain(zones, z)|
    ensures Chain(zones, z)[k] <= z
    decreases z
  {
    if k > 0 {
      var p := zones[z - 1].parent.value;
      assert Chain(zones, z)[k] == Chain(zones, p)[k - 1];
      ChainBelow(zones, p, k - 1);
    }
  }

  /** ... and indices strictly decrease along the chain, since every parent was built
      before its child: this is why prototype-chain lookup ends. */
  lemma {:induction false} ChainDecreasing(zones: seq<ZoneRec>, z: ZoneId, i: nat, j: nat)
    requires ParentsBelow(zones) && IsZone(zones, z) && i < j < |Chain(zones, z)|
    ensures Chain(zones, z)[j] < Chain(zones, z)[i]
    decreases z
  {
    var p := zones[z - 1].parent.value;
    assert Chain(zones, z)[j] == Chain(zones, p)[j - 1];
    if i == 0 {
      ChainBelow(zones, p, j - 1);
    } else {
      assert Chain(zones, z)[i] == Chain(zones, p)[i - 1];
      ChainDecreasing(zones, p, i - 1, j - 1);
    }
  }

  /** The key is an own property of zone `z`. */
  predicate Owns(zones: seq<ZoneRec>, z: ZoneId, key: string)
    requires IsZone(zones, z)
  {
    key in zones[z - 1].props
  }

  /** Lookup finds the value of the first zone along the chain that owns the key ... */
  lemma {:induction false} LookupFirstOwner(zones: seq<ZoneRec>, z: ZoneId, key: string, i: nat)
    requires ParentsBelow(zones) && IsZone(zones, z)
    requires i < |Chain(zones, z)| && Owns(zones, Chain(zones, z)[i], key)
    requires forall j | 0 <= j < i :: !Owns(zones, Chain(zones, z)[j], key)
    ensures Lookup(zones, z, key) == zones[Chain(zones, z)[i] - 1].props[key]
    decreases z
  {
    var c := Chain(zones, z);
    assert c[0] == z;
    if i == 0 {
      assert Owns(zones, z, key);
    } else {
      assert !Owns(zones, z, key);
      var p := zones[z - 1].parent.value;
      var c' := Chain(zones, p);
      assert c == [z] + c';
      forall j | 0 <= j < i - 1 ensures !Owns(zones, c'[j], key) {
        assert c'[j] == c[j + 1];
      }
      assert c'[i - 1] == c[i];
      LookupFirstOwner(zones, p, key, i - 1);
      assert Lookup(zones, z, key) == Lookup(zones, p, key);
    }
  }

  /** ... and `undefined` when no zone along the chain owns it. */
  lemma {:induction false} LookupNoOwner(zones: seq<ZoneRec>, z: ZoneId, key: string)
    requires ParentsBelow(zones) && IsZone(zones, z)
    requires forall j | 0 <= j < |Chain(zones, z)| :: !Owns(zones, Chain(zones, z)[j], key)
    ensures Lookup(zones, z, key) == Undefined
    decreases z
  {
    assert Chain(zones, z)[0] == z;
    match zones[z - 1].parent
    case None =>
    case Some(p) =>
      assert Chain(zones, z) == [z] + Chain(zones, p);
      forall j | 0 <= j < |Chain(zones, p)| ensures !Owns(zones, Chain(zones, p)[j], key) {
        assert Chain(zones, p)[j] == Chain(zones, z)[j + 1];
      }
      LookupNoOwner(zones, p, key);
  }

  /** Building more zones never changes what an existing zone reads. */
  lemma {:induction false} LookupStable(zones: seq<ZoneRec>, zones': seq<ZoneRec>, z: ZoneId, key: string)
    requires ParentsBelow(zones) && zones <= zones' && IsZone(zones, z)
    ensures ParentsBelow(zones') ==> Lookup(zones', z, key) == Lookup(zones, z, key)
    decreases z
  {
    if ParentsBelow(zones') {
      assert zones'[z - 1] == zones[z - 1];
      if key !in zones[z - 1].props && zones[z - 1].parent.Some? {
        LookupStable(zones, zones', zones[z - 1].parent.value, key);
      }
    }
  }

  /** Every value a zone can read refers only to zones that exist. */
  lemma {:induction false} LookupWF(zones: seq<ZoneRec>, counter: nat, z: ZoneId, key: string)
    requires ParentsBelow(zones) && IsZone(zones, z) && PropsWF(zones, counter)
    ensures WF(Lookup(zones, z, key), counter)
    decreases z
  {
    if key in zones[z - 1].props {
      assert WF(zones[z - 1].props[key], counter);
    } else if zones[z - 1].parent.Some? {
      LookupWF(zones, counter, zones[z - 1].parent.value, key);
    }
  }

  /** The own properties a new zone receives: `index` and `parentZone` (lines 33-34), then
      every key of the spec (lines 35-37), which overrides the first two. */
  function OwnProps(id: ZoneId, parent: Option<ZoneId>, spec: map<string, Value>): map<string, Value> {
    map["index" := Num(id), "parentZone" := (if parent.Some? then ZoneRef(parent.value) else Null)] + spec
  }

  /** `new Zone(parentZone, ZoneSpec)`: the new zone takes the next counter value as its
      index, the counter advances to it, the zone is added after every existing one with the
      given parent, and nothing else in the state changes. */
  function NewZone(st: State, parent: Option<ZoneId>, spec: map<string, Value>): (r: (State, ZoneId))
    requires st.counter == |st.zones|
    ensures r.1 == st.counter + 1 && r.0.counter == r.1 && |r.0.zones| == r.1
    ensures st.zones <= r.0.zones && r.0.zones[r.1 - 1].parent == parent
    ensures r.0.zones[r.1 - 1].props == OwnProps(r.1, parent, spec)
    ensures r.0.current == st.current && r.0.hosts == st.hosts && r.0.trace == st.trace
  {
    var id := st.counter + 1;
    (st.(counter := id, zones := st.zones + [ZoneRec(parent, OwnProps(id, parent, spec))]), id)
  }

  /** What a forked zone reads (lines 31-38): a key of its spec gives the spec's value;
      `index` and `parentZone`, unless the spec overrides them, give its index and its
      parent; every other key gives what the parent reads. */
  lemma ForkLookup(st: State, p: ZoneId, spec: map<string, Value>, key: string)
    requires st.counter == |st.zones| && ParentsBelow(st.zones) && IsZone(st.zones, p)
    ensures var (st', id) := NewZone(st, Some(p), spec);
      && ParentsBelow(st'.zones)
      && Lookup(st'.zones, id, key) ==
           if key in spec then spec[key]
           else if key == "index" then Num(id)
           else if key == "parentZone" then ZoneRef(p)
           else Lookup(st.zones, p, key)
  {
    var (st', id) := NewZone(st, Some(p), spec);
    assert ParentsBelow(st'.zones) by {
      forall i | 0 <= i < |st'.zones| && st'.zones[i].parent.Some? ensures 1 <= st'.zones[i].parent.value <= i {
        if i < |st.zones| {
          assert st'.zones[i] == st.zones[i];
        }
      }
    }
    if key !in OwnProps(id, Some(p), spec) {
      LookupStable(st.zones, st'.zones, p, key);
    }
  }

  /** The root zone (line 77, `new Zone()` with no parent) is the first zone: it takes
      index 1 and reads its own index, `null` as its parent, and `undefined` for every
      other key. */
  lemma RootLookup(hosts: map<HostId, map<string, Value>>, key: string)
    ensures var (st', id) := NewZone(State(0, 0, [], hosts, []), None, map[]);
      && id == 1
      && ParentsBelow(st'.zones)
      && Lookup(st'.zones, id, key) ==
           if key == "index" then Num(1) else if key == "parentZone" then Null else Undefined
  {
  }
}
