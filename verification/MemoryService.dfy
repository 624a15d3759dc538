/** The mutable in-memory store: each locked operation edits the tables and allocators in place. It is
    proved to take the step `MemoryStore.Apply` specifies, and thereby to keep every allocator exact
    and to raise the epoch of every network whose configurations it changes. */
module MemoryService {
  import opened Common
  import opened MemoryEpochs
  import opened MemoryStore
  import Ipam

  datatype Error = NetworkNotFound | DeviceNotFound | RouteNotFound | RelayNotFound
                 | InvalidPrefix | InvalidKey | InvalidInvite | PoolExhausted
  datatype Reply = Done | Made(id: Id) | Existing | Failed(error: Error)

  lemma ImportStep(s: Inner, network: Id, entries: seq<Entry>, i: nat)
    requires TablesShaped(s) && i < |entries| && forall e | e in entries :: e.key.Some?
    ensures ImportEntries(s, network, entries[i..]) == ImportEntries(ImportEntry(s, network, entries[i]), network, entries[i + 1..])
  {
  }

  lemma SeenGrows(s: Inner, network: Id, e: Entry)
    requires TablesShaped(s) && e.key.Some? && !ActiveKey(s, network, e.key.value) && s.seqno !in s.devices
    ensures ActiveKeys(ImportEntry(s, network, e), network) == ActiveKeys(s, network) + {e.key.value}
  {
    var s' := ImportEntry(s, network, e);
    assert ActiveIn(s'.devices[s.seqno], network) && s'.devices[s.seqno].key == e.key.value;
    forall k | k in ActiveKeys(s, network)
      ensures k in ActiveKeys(s', network)
    {
      var id :| id in s.devices && ActiveIn(s.devices[id], network) && s.devices[id].key == k;
      assert id in s'.devices && s'.devices[id] == s.devices[id];
    }
  }

  class Store {
    var networks: map<Id, Network>
    var devices: map<Id, Device>
    var invites: map<Code, Invite>
    var ipams: map<Id, Ipam.Allocator>
    ghost var pools: map<Id, Pool>
    ghost var repr: set<object>
    var routes: map<Id, Route>
    var relays: map<Id, Relay>
    var endpoints: map<Id, seq<string>>
    var seqno: nat
    var netIndex: nat

    /** The allocators are sound, no two networks share one, and `pools` is what they hold. */
    ghost predicate Sound()
      reads this`ipams, this`pools, this`repr, repr
    {
      && this !in repr && pools.Keys == ipams.Keys
      && (forall n | n in ipams :: ipams[n] in repr && ipams[n].used in repr)
      && (forall n | n in ipams :: ipams[n].Valid() && pools[n] == Pool(ipams[n].octet, ipams[n].ula, ipams[n].View()))
      && (forall m, n | m in ipams && n in ipams && m != n :: ipams[m] != ipams[n] && ipams[m].used != ipams[n].used)
    }

    ghost function Value(): Inner
      reads this
    {
      Inner(networks, devices, invites, pools, routes, relays, endpoints, seqno, netIndex)
    }

    ghost predicate Valid()
      reads this, repr
    {
      Sound() && Inv(Value())
    }

    constructor ()
      ensures Valid() && Value() == Initial()
    {
      networks, devices, invites, ipams := map[], map[], map[], map[];
      pools, repr := map[], {};
      routes, relays, endpoints := map[], map[], map[];
      seqno, netIndex := 1, 0;
      InitialInv();
    }

    method NextSeq() returns (n: nat)
      modifies this`seqno
      ensures n == old(seqno) && seqno == old(seqno) + 1
    {
      n := seqno;
      seqno := seqno + 1;
    }

    /** `bump_epoch`: a network that is gone is skipped. */
    method BumpEpoch(id: Id)
      modifies this`networks
      ensures networks == Bump(old(networks), {id})
    {
      if id in networks { networks := networks[id := networks[id].(epoch := networks[id].epoch + 1)]; }
    }

    method BumpEach(ids: set<Id>)
      modifies this`networks
      ensures networks == Bump(old(networks), ids)
    {
      var done: set<Id> := {};
      while ids - done != {}
        invariant done <= ids
        invariant networks == Bump(old(networks), done)
        decreases ids - done
      {
        var id :| id in ids - done;
        BumpEpoch(id);
        done := done + {id};
      }
      assert done == ids;
    }

    method AddAllocator(id: Id, octet: nat, ula: nat)
      requires Sound()
      modifies this`ipams, this`pools, this`repr
      ensures Sound() && fresh(repr - old(repr))
      ensures pools == old(pools)[id := Pool(octet, ula, Ipam.Empty())]
    {
      var ipam := new Ipam.Allocator(octet, ula);
      ipams := ipams[id := ipam];
      pools := pools[id := Pool(octet, ula, ipam.View())];
      repr := repr + {ipam, ipam.used};
    }

    method AddNetwork(name: string, ula: nat) returns (id: Id, octet: nat)
      requires Sound()
      modifies this`networks, this`seqno, this`netIndex
      ensures Sound()
      ensures id == old(seqno) && seqno == id + 1 && octet == old(netIndex) % 200 + 16 && netIndex == old(netIndex) + 1
      ensures networks == old(networks)[id := Network(name, octet, ula, 0)]
    {
      octet := netIndex % 200 + 16;
      netIndex := netIndex + 1;
      id := NextSeq();
      networks := networks[id := Network(name, octet, ula, 0)];
    }

    method CreateNetwork(name: string, ula: nat) returns (r: Reply)
      requires Sound()
      modifies this, repr
      ensures fresh(repr - old(repr))
      ensures Sound() && Value() == NetworkState(old(Value()), name, ula) && r == Made(old(seqno))
    {
      var id, octet := AddNetwork(name, ula);
      AddAllocator(id, octet, ula);
      r := Made(id);
    }

    method CreateInvite(network: Id, expiresAt: Option<int>, maxUses: Option<nat>, code: Code) returns (r: Reply)
      requires Sound()
      modifies this
      ensures ipams == old(ipams) && repr == old(repr)
      ensures Sound() && Value() == InviteState(old(Value()), network, expiresAt, maxUses, code)
      ensures r == if network in old(networks) then Done else Failed(NetworkNotFound)
    {
      if network !in networks { return Failed(NetworkNotFound); }
      invites := invites[code := Invite(network, expiresAt, maxUses, 0)];
      r := Done;
    }

    /** Only allocators changed. */
    twostate predicate TablesKept()
      reads this
    {
      unchanged(this`networks, this`devices, this`invites, this`ipams, this`repr, this`routes, this`relays, this`endpoints, this`seqno, this`netIndex)
    }

    /** One allocator changed, and its pool was brought up to date. */
    twostate lemma OnePoolChanged(n: Id)
      requires old(Sound()) && unchanged(this`ipams, this`repr) && n in ipams && ipams[n].Valid()
      requires forall m | m in ipams && m != n :: unchanged(ipams[m]) && unchanged(ipams[m].used)
      requires pools == old(pools)[n := old(pools)[n].(leases := ipams[n].View())]
      ensures Sound()
    {
    }

    /** Ask the network's allocator for a host. */
    method Lease(n: Id, key: Key) returns (host: Option<nat>)
      requires Sound() && n in ipams
      modifies this`pools, repr
      ensures TablesKept()
      ensures Sound()
      ensures
        var pool := old(pools)[n];
        match Ipam.Allocate(pool.leases, key)
        case None => host.None? && Value() == old(Value())
        case Some((h, leases)) => host == Some(h) && Value() == old(Value()).(ipams := old(pools)[n := pool.(leases := leases)])
    {
      host := ipams[n].AllocateFor(key);
      pools := pools[n := pools[n].(leases := ipams[n].View())];
      OnePoolChanged(n);
      assert host.None? ==> pools == old(pools);
    }

    method Admit(code: Code, name: string, key: Key) returns (r: Reply)
      requires Sound() && code in invites && invites[code].network in ipams
      modifies this, repr
      ensures Sound() && ipams == old(ipams) && repr == old(repr) && Value() == Admitted(old(Value()), code, name, key)
      ensures r == Failed(PoolExhausted) || r == Made(old(seqno))
      ensures r.Failed? <==> Ipam.Allocate(old(pools[invites[code].network].leases), key).None?
    {
      var n := invites[code].network;
      var octet, ula := ipams[n].octet, ipams[n].ula;
      var host := Lease(n, key);
      if host.None? { return Failed(PoolExhausted); }
      r := Register(code, Device(n, name, key, Some(Dotted(100, 72, octet, host.value)), Some(Host6(ula, host.value)), true));
    }

    /** Charge the invite, add the device, bump its network. */
    method Register(code: Code, d: Device) returns (r: Reply)
      requires code in invites
      requires Sound()
      modifies this`devices, this`invites, this`networks, this`seqno
      ensures Sound()
      ensures Value() == Registered(old(Value()), code, d) && r == Made(old(seqno))
    {
      var id := NextSeq();
      invites := invites[code := invites[code].(uses := invites[code].uses + 1)];
      devices := devices[id := d];
      BumpEpoch(d.network);
      r := Made(id);
    }

    method Enroll(code: Code, name: string, key: Option<Key>, now: int) returns (r: Reply)
      requires Sound()
      modifies this, repr
      ensures ipams == old(ipams) && repr == old(repr)
      ensures Sound() && Value() == (if key.None? then old(Value()) else EnrollState(old(Value()), code, name, key.value, now))
      ensures r.Made? ==> r.id == old(seqno)
      ensures !r.Made? ==> Value() == old(Value())
      ensures r.Existing? ==> key.Some? && code in invites && ActiveKey(Value(), invites[code].network, key.value)
      ensures r == Failed(PoolExhausted) ==> key.Some? && code in invites && Redeemable(invites[code], now)
                                             && !ActiveKey(Value(), invites[code].network, key.value)
    {
      if key.None? { return Failed(InvalidKey); }
      if code !in invites || Expired(invites[code], now) { return Failed(InvalidInvite); }
      var invite := invites[code];
      var n := invite.network;
      if exists id | id in devices :: ActiveIn(devices[id], n) && devices[id].key == key.value { return Existing; }
      if !Redeemable(invite, now) { return Failed(InvalidInvite); }
      if n !in ipams { return Failed(NetworkNotFound); }
      r := Admit(code, name, key.value);
    }

    /** An imported dotted address claims its host; a refusal is ignored. */
    method Claim(network: Id, key: Key, v4: Option<V4>)
      requires Sound() && network in ipams
      modifies this`pools, repr
      ensures TablesKept()
      ensures Sound() && pools == old(pools)[network := old(pools)[network].(leases := ReserveImported(old(pools)[network].leases, key, v4))]
    {
      if v4.Some? && v4.value.Dotted? && v4.value.host < 256 {
        var claimed := ipams[network].ReserveFor(key, v4.value.host);
      }
      pools := pools[network := pools[network].(leases := ipams[network].View())];
      OnePoolChanged(network);
    }

    /** The creating half of the import loop, for a key not yet seen. */
    method ImportOne(network: Id, e: Entry) returns (id: Id)
      requires Sound() && e.key.Some? && !ActiveKey(Value(), network, e.key.value)
      modifies this, repr
      ensures Sound() && ipams == old(ipams) && repr == old(repr) && Value() == ImportEntry(old(Value()), network, e) && id == old(seqno)
    {
      if network in ipams { Claim(network, e.key.value, e.v4); }
      id := AddImported(network, e);
    }

    /** One round of the import loop. */
    method ImportNext(network: Id, e: Entry, seen: set<Key>) returns (made: Option<Id>)
      requires Sound() && e.key.Some? && seen == ActiveKeys(Value(), network) && forall id | id in devices :: id < seqno
      modifies this, repr
      ensures Sound() && ipams == old(ipams) && repr == old(repr) && Value() == ImportEntry(old(Value()), network, e)
      ensures (made.Some? <==> e.key.value !in seen) && seqno == old(seqno) + (if made.Some? then 1 else 0)
      ensures ActiveKeys(Value(), network) == seen + {e.key.value} && forall id | id in devices :: id < seqno
    {
      if e.key.value in seen { return None; }
      SeenGrows(Value(), network, e);
      var id := ImportOne(network, e);
      made := Some(id);
    }

    method AddImported(network: Id, e: Entry) returns (id: Id)
      requires e.key.Some?
      requires Sound()
      modifies this`devices, this`endpoints, this`seqno
      ensures Sound()
      ensures id == old(seqno) && seqno == id + 1
      ensures devices == old(devices)[id := Device(network, e.name, e.key.value, e.v4, e.v6, true)]
      ensures endpoints == if e.endpoints == [] then old(endpoints) else old(endpoints)[id := e.endpoints]
    {
      id := NextSeq();
      if e.endpoints != [] { endpoints := endpoints[id := e.endpoints]; }
      devices := devices[id := Device(network, e.name, e.key.value, e.v4, e.v6, true)];
    }

    /** The loop of the import: an active key is skipped, any other becomes a device. */
    method ImportEach(network: Id, entries: seq<Entry>) returns (created: seq<Id>, skipped: seq<Key>)
      requires Sound() && (forall id | id in devices :: id < seqno) && forall e | e in entries :: e.key.Some?
      modifies this, repr
      ensures Sound() && ipams == old(ipams) && repr == old(repr) && Value() == ImportEntries(old(Value()), network, entries)
      ensures |created| + |skipped| == |entries| && |created| == seqno - old(seqno)
    {
      created, skipped := [], [];
      var seen := set id | id in devices && ActiveIn(devices[id], network) :: devices[id].key;
      ghost var goal := ImportEntries(Value(), network, entries);
      assert entries[0..] == entries;
      for i := 0 to |entries|
        invariant Sound() && ipams == old(ipams) && repr == old(repr) && forall id | id in devices :: id < seqno
        invariant seen == ActiveKeys(Value(), network)
        invariant goal == ImportEntries(Value(), network, entries[i..])
        invariant |created| + |skipped| == i && |created| == seqno - old(seqno)
      {
        var e := entries[i];
        assert e in entries;
        ImportStep(Value(), network, entries, i);
        var made := ImportNext(network, e, seen);
        seen := seen + {e.key.value};
        if made.Some? { created := created + [made.value]; } else { skipped := skipped + [e.key.value]; }
      }
      assert entries[|entries|..] == [];
    }

    method ImportDevices(network: Id, entries: seq<Entry>) returns (r: Reply, created: seq<Id>, skipped: seq<Key>)
      requires Sound() && forall id | id in devices :: id < seqno
      modifies this, repr
      ensures ipams == old(ipams) && repr == old(repr)
      ensures Sound() && Value() == ImportState(old(Value()), network, entries)
      ensures r.Done? ==> |created| + |skipped| == |entries| && |created| == seqno - old(seqno)
    {
      if exists e | e in entries :: e.key.None? { return Failed(InvalidKey), [], []; }
      if network !in networks { return Failed(NetworkNotFound), [], []; }
      created, skipped := ImportEach(network, entries);
      if created != [] { BumpEpoch(network); }
      r := Done;
    }

    /** Give a key's host back to the network's allocator. */
    method Release(n: Id, key: Key)
      requires Sound() && n in ipams
      modifies this`pools, repr
      ensures TablesKept()
      ensures Sound() && pools == old(pools)[n := old(pools)[n].(leases := Ipam.Recycle(old(pools)[n].leases, key))]
    {
      var freed := ipams[n].RecycleFor(key);
      pools := pools[n := pools[n].(leases := ipams[n].View())];
      OnePoolChanged(n);
    }

    method RevokeDevice(id: Id) returns (r: Reply)
      requires Sound()
      modifies this, repr
      ensures ipams == old(ipams) && repr == old(repr)
      ensures Sound() && Value() == RevokeState(old(Value()), id)
      ensures r == if id in old(devices) then Done else Failed(DeviceNotFound)
    {
      if id !in devices { return Failed(DeviceNotFound); }
      var device := devices[id];
      if device.network in ipams { Release(device.network, device.key); }
      Deactivate(id);
      r := Done;
    }

    method Deactivate(id: Id)
      requires Sound() && id in devices
      modifies this`devices, this`networks
      ensures Sound()
      ensures devices == old(devices)[id := old(devices)[id].(active := false)] && networks == Bump(old(networks), {old(devices)[id].network})
    {
      devices := devices[id := devices[id].(active := false)];
      BumpEpoch(devices[id].network);
    }

    method SetEndpoints(id: Id, reported: seq<string>) returns (r: Reply)
      requires Sound()
      modifies this
      ensures ipams == old(ipams) && repr == old(repr)
      ensures Sound() && Value() == EndpointsState(old(Value()), id, reported)
      ensures r == if id in old(devices) then Done else Failed(DeviceNotFound)
    {
      if id !in devices { return Failed(DeviceNotFound); }
      endpoints := endpoints[id := reported];
      BumpEpoch(devices[id].network);
      r := Done;
    }

    method AdvertiseRoute(device: Id, prefix: Option<Prefix>) returns (r: Reply)
      requires Sound()
      modifies this
      ensures ipams == old(ipams) && repr == old(repr)
      ensures Sound() && Value() == AdvertiseState(old(Value()), device, prefix)
      ensures r == if device !in old(devices) then Failed(DeviceNotFound)
                   else if prefix.None? then Failed(InvalidPrefix) else Made(old(seqno))
    {
      if device !in devices { return Failed(DeviceNotFound); }
      var id := NextSeq();
      if prefix.None? { return Failed(InvalidPrefix); }
      routes := routes[id := Route(devices[device].network, device, prefix.value, false)];
      r := Made(id);
    }

    method ApproveRoute(id: Id) returns (r: Reply)
      requires Sound()
      modifies this
      ensures ipams == old(ipams) && repr == old(repr)
      ensures Sound() && Value() == ApproveState(old(Value()), id)
      ensures r == if id in old(routes) then Done else Failed(RouteNotFound)
    {
      if id !in routes { return Failed(RouteNotFound); }
      routes := routes[id := routes[id].(approved := true)];
      BumpEpoch(routes[id].network);
      r := Done;
    }

    method DeleteRoute(id: Id) returns (r: Reply)
      requires Sound()
      modifies this
      ensures ipams == old(ipams) && repr == old(repr)
      ensures Sound() && Value() == DeleteRouteState(old(Value()), id)
      ensures r == if id in old(routes) then Done else Failed(RouteNotFound)
    {
      if id !in routes { return Failed(RouteNotFound); }
      var route := routes[id];
      routes := routes - {id};
      if route.approved { BumpEpoch(route.network); }
      r := Done;
    }

    method RegisterRelay(scope: Option<Id>, body: string) returns (r: Reply)
      requires Sound()
      modifies this
      ensures ipams == old(ipams) && repr == old(repr)
      ensures Sound() && Value() == RegisterRelayState(old(Value()), scope, body) && r == Made(old(seqno))
    {
      var id := NextSeq();
      relays := relays[id := Relay(scope, body)];
      BumpEach(InScope(networks, scope));
      r := Made(id);
    }

    method UpdateRelay(id: Id, scope: Option<Id>, body: string) returns (r: Reply)
      requires Sound()
      modifies this
      ensures ipams == old(ipams) && repr == old(repr)
      ensures Sound() && Value() == UpdateRelayState(old(Value()), id, scope, body)
      ensures r == if scope.Some? && scope.value !in old(networks) then Failed(NetworkNotFound)
                   else if id in old(relays) then Done else Failed(RelayNotFound)
    {
      if scope.Some? && scope.value !in networks { return Failed(NetworkNotFound); }
      if id !in relays { return Failed(RelayNotFound); }
      var affected := InScope(networks, relays[id].scope) + InScope(networks, scope);
      relays := relays[id := Relay(scope, body)];
      BumpEach(affected);
      r := Done;
    }

    /** One locked operation. */
    method Dispatch(op: Op) returns (r: Reply)
      requires Sound() && forall id | id in devices :: id < seqno
      modifies this, repr
      ensures Sound() && fresh(repr - old(repr)) && Value() == Apply(old(Value()), op)
    {
      var created: seq<Id>, skipped: seq<Key>;
      match op
      case CreateNetwork(name, ula) => r := CreateNetwork(name, ula);
      case CreateInvite(network, expiresAt, maxUses, code) => r := CreateInvite(network, expiresAt, maxUses, code);
      case Enroll(code, name, key, now) => r := Enroll(code, name, key, now);
      case Import(network, entries) => r, created, skipped := ImportDevices(network, entries);
      case Revoke(device) => r := RevokeDevice(device);
      case SetEndpoints(device, reported) => r := SetEndpoints(device, reported);
      case AdvertiseRoute(device, prefix) => r := AdvertiseRoute(device, prefix);
      case ApproveRoute(route) => r := ApproveRoute(route);
      case DeleteRoute(route) => r := DeleteRoute(route);
      case RegisterRelay(scope, body) => r := RegisterRelay(scope, body);
      case UpdateRelay(relay, scope, body) => r := UpdateRelay(relay, scope, body);
    }

    /** What a caller relies on, whichever operation it calls and whether it succeeds: allocators stay
        exact, leases stay with active devices, and a network whose configurations change has its
        epoch raised. */
    method Handle(op: Op) returns (r: Reply)
      requires Valid()
      modifies this, repr
      ensures Valid() && fresh(repr - old(repr))
      ensures Value() == Apply(old(Value()), op) && Kept(old(Value()), Value())
    {
      StepKept(Value(), op);
      r := Dispatch(op);
    }

    /** Any sequence of operations is the run the theorems are about. */
    method Serve(ops: seq<Op>)
      requires Valid()
      modifies this, repr
      ensures Valid() && Value() == Run(old(Value()), ops)
    {
      ghost var goal := Run(Value(), ops);
      assert ops[0..] == ops;
      for i := 0 to |ops|
        invariant Valid() && fresh(repr - old(repr))
        invariant goal == Run(Value(), ops[i..])
      {
        assert ops[i..][0] == ops[i] && ops[i..][1..] == ops[i + 1..];
        var r := Handle(ops[i]);
      }
      assert ops[|ops|..] == [];
    }
  }
}
