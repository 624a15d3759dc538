/**
 The in-memory control store (`control-server/src/state.rs`): every operation runs under one
 lock, so the store is a state machine over the tables of `Inner`.
 */
module MemoryStore {
  import opened Common
  import Ipam

  type Id = nat
  type Key = Ipam.Key
  type Code = nat

  datatype V4 = Dotted(a: nat, b: nat, c: nat, host: nat) | Text4(text: string)
  datatype V6 = Host6(ula: nat, host: nat) | Text6(text: string)
  datatype Prefix = Prefix(network: string, length: nat)

  predicate IsDefault(p: Prefix) {
    p.length == 0
  }

  datatype Network = Network(name: string, octet: nat, ula: nat, epoch: nat)
  datatype Device = Device(network: Id, name: string, key: Key, v4: Option<V4>, v6: Option<V6>, active: bool)
  datatype Invite = Invite(network: Id, expiresAt: Option<int>, maxUses: Option<nat>, uses: nat)
  datatype Route = Route(network: Id, device: Id, prefix: Prefix, approved: bool)
  datatype Relay = Relay(scope: Option<Id>, body: string)

  /** A network's allocator: the bases it writes host octets into, and its lease table. */
  datatype Pool = Pool(octet: nat, ula: nat, leases: Ipam.Leases)

  datatype Inner = Inner(
    networks: map<Id, Network>, devices: map<Id, Device>, invites: map<Code, Invite>,
    ipams: map<Id, Pool>, routes: map<Id, Route>, relays: map<Id, Relay>,
    endpoints: map<Id, seq<string>>, seqno: nat, netIndex: nat)

  datatype Entry = Entry(name: string, key: Option<Key>, v4: Option<V4>, v6: Option<V6>, endpoints: seq<string>)

  /** Keys and prefixes arrive normalised; None is an input that does not parse. */
  datatype Op =
    | CreateNetwork(name: string, ula: nat)
    | CreateInvite(network: Id, expiresAt: Option<int>, maxUses: Option<nat>, code: Code)
    | Enroll(code: Code, name: string, key: Option<Key>, now: int)
    | Import(network: Id, entries: seq<Entry>)
    | Revoke(device: Id)
    | SetEndpoints(device: Id, endpoints: seq<string>)
    | AdvertiseRoute(device: Id, prefix: Option<Prefix>)
    | ApproveRoute(route: Id)
    | DeleteRoute(route: Id)
    | RegisterRelay(scope: Option<Id>, body: string)
    | UpdateRelay(relay: Id, scope: Option<Id>, body: string)

  // ---- Operations ---------------------------------------------------------------------

  function Bump(networks: map<Id, Network>, ids: set<Id>): (r: map<Id, Network>)
    ensures r.Keys == networks.Keys
    ensures forall n | n in networks :: r[n].epoch == networks[n].epoch + (if n in ids then 1 else 0)
  {
    map n | n in networks :: if n in ids then networks[n].(epoch := networks[n].epoch + 1) else networks[n]
  }

  predicate ActiveIn(d: Device, network: Id) {
    d.active && d.network == network
  }

  predicate ActiveKey(s: Inner, network: Id, key: Key) {
    exists id | id in s.devices :: ActiveIn(s.devices[id], network) && s.devices[id].key == key
  }

  function ActiveKeys(s: Inner, network: Id): set<Key> {
    set id | id in s.devices && ActiveIn(s.devices[id], network) :: s.devices[id].key
  }

  predicate Expired(inv: Invite, now: int) {
    inv.expiresAt.Some? && now >= inv.expiresAt.value
  }

  predicate Redeemable(inv: Invite, now: int) {
    !Expired(inv, now) && (inv.maxUses.None? || inv.uses < inv.maxUses.value)
  }

  predicate TablesShaped(s: Inner) {
    forall n | n in s.ipams :: Ipam.Shaped(s.ipams[n].leases)
  }

  /** Charge the invite, add the device and bump its network. */
  function Registered(s: Inner, code: Code, d: Device): Inner
    requires code in s.invites
  {
    s.(devices := s.devices[s.seqno := d],
       invites := s.invites[code := s.invites[code].(uses := s.invites[code].uses + 1)],
       networks := Bump(s.networks, {d.network}),
       seqno := s.seqno + 1)
  }

  /** Lease an address and register a device with it. */
  function Admitted(s: Inner, code: Code, name: string, key: Key): Inner
    requires TablesShaped(s) && code in s.invites && s.invites[code].network in s.ipams
  {
    var n := s.invites[code].network;
    var pool := s.ipams[n];
    match Ipam.Allocate(pool.leases, key)
    case None => s
    case Some((host, leases)) =>
      Registered(s.(ipams := s.ipams[n := pool.(leases := leases)]), code,
                 Device(n, name, key, Some(Dotted(100, 72, pool.octet, host)), Some(Host6(pool.ula, host)), true))
  }

  function EnrollState(s: Inner, code: Code, name: string, key: Key, now: int): (s': Inner)
    requires TablesShaped(s)
  {
    if code !in s.invites || Expired(s.invites[code], now) then s
    else
      var inv := s.invites[code];
      if ActiveKey(s, inv.network, key) || !Redeemable(inv, now) || inv.network !in s.ipams then s
      else Admitted(s, code, name, key)
  }

  /** An imported address reserves its host octet; a refused reservation is ignored. */
  function ReserveImported(leases: Ipam.Leases, key: Key, v4: Option<V4>): (r: Ipam.Leases)
    requires Ipam.Shaped(leases)
    ensures Ipam.Shaped(r)
  {
    if v4.Some? && v4.value.Dotted? && v4.value.host < 256 then
      match Ipam.Reserve(leases, key, v4.value.host)
      case None => leases
      case Some(l) => l
    else leases
  }

  /** One entry of the import loop. */
  function ImportEntry(s: Inner, network: Id, e: Entry): (s': Inner)
    requires TablesShaped(s) && e.key.Some?
    ensures TablesShaped(s')
  {
    var key := e.key.value;
    if ActiveKey(s, network, key) then s
    else
      s.(ipams := if network in s.ipams
                  then s.ipams[network := s.ipams[network].(leases := ReserveImported(s.ipams[network].leases, key, e.v4))]
                  else s.ipams,
         devices := s.devices[s.seqno := Device(network, e.name, key, e.v4, e.v6, true)],
         endpoints := if e.endpoints == [] then s.endpoints else s.endpoints[s.seqno := e.endpoints],
         seqno := s.seqno + 1)
  }

  function ImportEntries(s: Inner, network: Id, entries: seq<Entry>): (s': Inner)
    requires TablesShaped(s) && forall e | e in entries :: e.key.Some?
    ensures TablesShaped(s')
    decreases |entries|
  {
    if entries == [] then s
    else
      assert entries[0] in entries;
      ImportEntries(ImportEntry(s, network, entries[0]), network, entries[1..])
  }

  function ImportState(s: Inner, network: Id, entries: seq<Entry>): Inner
    requires TablesShaped(s)
  {
    if (exists e | e in entries :: e.key.None?) || network !in s.networks then s
    else
      var s1 := ImportEntries(s, network, entries);
      if s1.seqno == s.seqno then s1 else s1.(networks := Bump(s1.networks, {network}))
  }

  function RevokeState(s: Inner, id: Id): Inner
    requires TablesShaped(s)
  {
    if id !in s.devices then s
    else
      var d := s.devices[id];
      s.(ipams := if d.network in s.ipams then s.ipams[d.network := s.ipams[d.network].(leases := Ipam.Recycle(s.ipams[d.network].leases, d.key))] else s.ipams,
         devices := s.devices[id := d.(active := false)],
         networks := Bump(s.networks, {d.network}))
  }

  function NetworkState(s: Inner, name: string, ula: nat): Inner {
    s.(networks := s.networks[s.seqno := Network(name, s.netIndex % 200 + 16, ula, 0)],
       ipams := s.ipams[s.seqno := Pool(s.netIndex % 200 + 16, ula, Ipam.Empty())],
       seqno := s.seqno + 1, netIndex := s.netIndex + 1)
  }

  function InviteState(s: Inner, network: Id, expiresAt: Option<int>, maxUses: Option<nat>, code: Code): Inner {
    if network !in s.networks then s else s.(invites := s.invites[code := Invite(network, expiresAt, maxUses, 0)])
  }

  function EndpointsState(s: Inner, device: Id, endpoints: seq<string>): Inner {
    if device !in s.devices then s
    else s.(endpoints := s.endpoints[device := endpoints], networks := Bump(s.networks, {s.devices[device].network}))
  }

  /** An invalid prefix is refused after its id was drawn from the counter. */
  function AdvertiseState(s: Inner, device: Id, prefix: Option<Prefix>): Inner {
    if device !in s.devices then s
    else if prefix.None? then s.(seqno := s.seqno + 1)
    else s.(routes := s.routes[s.seqno := Route(s.devices[device].network, device, prefix.value, false)], seqno := s.seqno + 1)
  }

  function ApproveState(s: Inner, route: Id): Inner {
    if route !in s.routes then s
    else s.(routes := s.routes[route := s.routes[route].(approved := true)],
            networks := Bump(s.networks, {s.routes[route].network}))
  }

  function DeleteRouteState(s: Inner, route: Id): Inner {
    if route !in s.routes then s
    else s.(routes := s.routes - {route},
            networks := if s.routes[route].approved then Bump(s.networks, {s.routes[route].network}) else s.networks)
  }

  function InScope(networks: map<Id, Network>, scope: Option<Id>): set<Id> {
    set n | n in networks && (scope.None? || scope == Some(n))
  }

  function RegisterRelayState(s: Inner, scope: Option<Id>, body: string): Inner {
    s.(relays := s.relays[s.seqno := Relay(scope, body)], networks := Bump(s.networks, InScope(s.networks, scope)), seqno := s.seqno + 1)
  }

  function UpdateRelayState(s: Inner, relay: Id, scope: Option<Id>, body: string): Inner {
    if (scope.Some? && scope.value !in s.networks) || relay !in s.relays then s
    else s.(relays := s.relays[relay := Relay(scope, body)],
            networks := Bump(s.networks, InScope(s.networks, s.relays[relay].scope) + InScope(s.networks, scope)))
  }

  function Apply(s: Inner, op: Op): Inner
    requires TablesShaped(s)
  {
    match op
    case CreateNetwork(name, ula) => NetworkState(s, name, ula)
    case CreateInvite(network, expiresAt, maxUses, code) => InviteState(s, network, expiresAt, maxUses, code)
    case Enroll(code, name, key, now) => if key.None? then s else EnrollState(s, code, name, key.value, now)
    case Import(network, entries) => ImportState(s, network, entries)
    case Revoke(device) => RevokeState(s, device)
    case SetEndpoints(device, endpoints) => EndpointsState(s, device, endpoints)
    case AdvertiseRoute(device, prefix) => AdvertiseState(s, device, prefix)
    case ApproveRoute(route) => ApproveState(s, route)
    case DeleteRoute(route) => DeleteRouteState(s, route)
    case RegisterRelay(scope, body) => RegisterRelayState(s, scope, body)
    case UpdateRelay(relay, scope, body) => UpdateRelayState(s, relay, scope, body)
  }

  function Run(s: Inner, ops: seq<Op>): Inner
    requires Inv(s)
    decreases |ops|
  {
    if ops == [] then s else StepKeepsInv(s, ops[0]); Run(Apply(s, ops[0]), ops[1..])
  }

  function Initial(): Inner {
    Inner(map[], map[], map[], map[], map[], map[], map[], 1, 0)
  }

  // ---- The invariant ---------------------------------------------------------------------

  /** Ids come from one counter, and every reference names an existing network. */
  predicate Refs(s: Inner) {
    && s.ipams.Keys == s.networks.Keys
    && (forall n | n in s.networks :: n < s.seqno)
    && (forall id | id in s.devices :: id < s.seqno && s.devices[id].network in s.networks)
    && (forall id | id in s.routes :: id < s.seqno)
    && (forall id | id in s.relays :: id < s.seqno)
    && (forall c | c in s.invites :: s.invites[c].network in s.networks)
  }

  /** A key is active at most once in a network. */
  predicate UniqueKeys(s: Inner) {
    forall x, y | x in s.devices && y in s.devices && x != y && s.devices[x].active && s.devices[y].active ::
      s.devices[x].network != s.devices[y].network || s.devices[x].key != s.devices[y].key
  }

  /** Every lease belongs to an active device of its network. */
  predicate LeasesHeld(s: Inner) {
    forall n, k | n in s.ipams && k in s.ipams[n].leases.byKey :: ActiveKey(s, n, k)
  }

  /** Every allocator's table is an exact cache of its leases. */
  ghost predicate TablesExact(ipams: map<Id, Pool>) {
    forall n | n in ipams :: Ipam.Exact(ipams[n].leases)
  }

  ghost predicate Base(s: Inner) {
    TablesShaped(s) && Refs(s) && UniqueKeys(s) && LeasesHeld(s)
  }

  ghost predicate Inv(s: Inner) {
    Base(s) && TablesExact(s.ipams)
  }

  /** Steps that leave devices and allocators alone. */
  lemma SameDevicesKeepBase(s: Inner, s': Inner)
    requires Base(s) && Refs(s') && s'.devices == s.devices && s'.ipams == s.ipams
    ensures Base(s')
  {
  }

  /** One device was added under a new id, with a key not active in its network; only that
      network's leases may have changed, by gaining the new key. */
  ghost predicate DeviceAdded(s: Inner, s': Inner, d: Device) {
    && d.active && d.network in s.networks && !ActiveKey(s, d.network, d.key)
    && s'.devices == s.devices[s.seqno := d] && s'.seqno == s.seqno + 1
    && s'.networks.Keys == s.networks.Keys
    && s'.routes == s.routes && s'.relays == s.relays
    && (forall c | c in s'.invites :: c in s.invites && s'.invites[c].network == s.invites[c].network)
    && s'.ipams.Keys == s.ipams.Keys
    && (forall n | n in s.ipams :: s'.ipams[n].leases.byKey.Keys
                                    <= s.ipams[n].leases.byKey.Keys + (if n == d.network then {d.key} else {}))
  }

  lemma AddedKeepsRefs(s: Inner, s': Inner, d: Device)
    requires Refs(s) && DeviceAdded(s, s', d)
    ensures Refs(s')
  {
  }

  lemma AddedKeepsUniqueKeys(s: Inner, s': Inner, d: Device)
    requires UniqueKeys(s) && DeviceAdded(s, s', d)
    ensures UniqueKeys(s')
  {
  }

  lemma AddedKeepsLeases(s: Inner, s': Inner, d: Device)
    requires Refs(s) && LeasesHeld(s) && DeviceAdded(s, s', d)
    ensures LeasesHeld(s')
  {
    forall n, k | n in s'.ipams && k in s'.ipams[n].leases.byKey
      ensures ActiveKey(s', n, k)
    {
      if k in s.ipams[n].leases.byKey {
        var x :| x in s.devices && ActiveIn(s.devices[x], n) && s.devices[x].key == k;
        assert x in s'.devices && s'.devices[x] == s.devices[x];
      } else {
        assert s'.devices[s.seqno] == d;
      }
    }
  }

  lemma AddedKeepsBase(s: Inner, s': Inner, d: Device)
    requires Base(s) && DeviceAdded(s, s', d) && TablesShaped(s')
    ensures Base(s')
  {
    AddedKeepsRefs(s, s', d);
    AddedKeepsUniqueKeys(s, s', d);
    AddedKeepsLeases(s, s', d);
  }

  /** Replacing one allocator's table. */
  lemma ReplacedTableExact(ipams: map<Id, Pool>, n: Id, pool: Pool)
    requires TablesExact(ipams) && Ipam.Exact(pool.leases)
    ensures TablesExact(ipams[n := pool])
  {
  }

  lemma ExactIsShaped(s: Inner)
    requires TablesExact(s.ipams)
    ensures TablesShaped(s)
  {
  }

  /** A key that is not active in the network holds no lease there. */
  lemma InactiveKeyUnleased(s: Inner, n: Id, key: Key)
    requires LeasesHeld(s) && n in s.ipams && !ActiveKey(s, n, key)
    ensures key !in s.ipams[n].leases.byKey
  {
  }

  /** The state after an enrollment that created a device. */
  lemma EnrollAdds(s: Inner, code: Code, name: string, key: Key, now: int)
    requires Base(s) && EnrollState(s, code, name, key, now) != s
    ensures
      var s' := EnrollState(s, code, name, key, now);
      && code in s.invites && s.invites[code].network in s.ipams
      && s.seqno in s'.devices && DeviceAdded(s, s', s'.devices[s.seqno])
      && key !in s.ipams[s.invites[code].network].leases.byKey
      && Ipam.Allocate(s.ipams[s.invites[code].network].leases, key).Some?
      && s'.ipams == s.ipams[s.invites[code].network := s.ipams[s.invites[code].network].(
                       leases := Ipam.Allocate(s.ipams[s.invites[code].network].leases, key).value.1)]
  {
  }

  lemma EnrollKeepsInv(s: Inner, code: Code, name: string, key: Key, now: int)
    requires Inv(s)
    ensures Inv(EnrollState(s, code, name, key, now))
  {
    var s' := EnrollState(s, code, name, key, now);
    if s' != s {
      EnrollAdds(s, code, name, key, now);
      var n := s.invites[code].network;
      Ipam.AllocateExact(s.ipams[n].leases, key);
      ReplacedTableExact(s.ipams, n, s'.ipams[n]);
      ExactIsShaped(s');
      AddedKeepsBase(s, s', s'.devices[s.seqno]);
    }
  }

  /** A reservation for an unleased key keeps the table exact, whether it is granted or not. */
  lemma ReservationExact(leases: Ipam.Leases, key: Key, v4: Option<V4>)
    requires Ipam.Exact(leases) && key !in leases.byKey
    ensures Ipam.Exact(ReserveImported(leases, key, v4))
  {
    if v4.Some? && v4.value.Dotted? && v4.value.host < 256 && Ipam.Reserve(leases, key, v4.value.host).Some? {
      Ipam.ReserveExactIff(leases, key, v4.value.host);
    }
  }

  lemma ImportAdds(s: Inner, network: Id, e: Entry)
    requires Base(s) && e.key.Some? && network in s.networks && !ActiveKey(s, network, e.key.value)
    ensures
      var s' := ImportEntry(s, network, e);
      && DeviceAdded(s, s', s'.devices[s.seqno]) && e.key.value !in s.ipams[network].leases.byKey
      && s'.ipams == s.ipams[network := s.ipams[network].(leases := ReserveImported(s.ipams[network].leases, e.key.value, e.v4))]
  {
  }

  lemma ImportEntryKeepsInv(s: Inner, network: Id, e: Entry)
    requires Inv(s) && e.key.Some? && network in s.networks
    ensures Inv(ImportEntry(s, network, e)) && network in ImportEntry(s, network, e).networks
  {
    if !ActiveKey(s, network, e.key.value) {
      var s' := ImportEntry(s, network, e);
      ImportAdds(s, network, e);
      ReservationExact(s.ipams[network].leases, e.key.value, e.v4);
      ReplacedTableExact(s.ipams, network, s'.ipams[network]);
      AddedKeepsBase(s, s', s'.devices[s.seqno]);
    }
  }

  lemma {:induction false} ImportEntriesKeepInv(s: Inner, network: Id, entries: seq<Entry>)
    requires Inv(s) && network in s.networks && forall e | e in entries :: e.key.Some?
    ensures Inv(ImportEntries(s, network, entries)) && network in ImportEntries(s, network, entries).networks
    decreases |entries|
  {
    if entries != [] {
      assert entries[0] in entries;
      ImportEntryKeepsInv(s, network, entries[0]);
      ImportEntriesKeepInv(ImportEntry(s, network, entries[0]), network, entries[1..]);
    }
  }

  lemma BumpKeepsInv(s: Inner, ids: set<Id>)
    requires Inv(s)
    ensures Inv(s.(networks := Bump(s.networks, ids)))
  {
  }

  lemma ImportKeepsInv(s: Inner, network: Id, entries: seq<Entry>)
    requires Inv(s)
    ensures Inv(ImportState(s, network, entries))
  {
    if (forall e | e in entries :: e.key.Some?) && network in s.networks {
      ImportEntriesKeepInv(s, network, entries);
      var s1 := ImportEntries(s, network, entries);
      BumpKeepsInv(s1, {network});
      assert ImportState(s, network, entries) in {s1, s1.(networks := Bump(s1.networks, {network}))};
    } else {
      assert ImportState(s, network, entries) == s;
    }
  }

  lemma RevokeKeepsLeases(s: Inner, id: Id)
    requires Base(s) && id in s.devices
    ensures LeasesHeld(RevokeState(s, id))
  {
    var s' := RevokeState(s, id);
    forall n, k | n in s'.ipams && k in s'.ipams[n].leases.byKey
      ensures ActiveKey(s', n, k)
    {
      var x :| x in s.devices && ActiveIn(s.devices[x], n) && s.devices[x].key == k;
      assert x in s'.devices && s'.devices[x] == s.devices[x];
    }
  }

  lemma RevokeKeepsRefs(s: Inner, id: Id)
    requires TablesShaped(s) && Refs(s) && UniqueKeys(s) && id in s.devices
    ensures Refs(RevokeState(s, id)) && UniqueKeys(RevokeState(s, id))
  {
  }

  lemma RevokeKeepsInv(s: Inner, id: Id)
    requires Inv(s)
    ensures Inv(RevokeState(s, id))
  {
    if id in s.devices {
      var s', n := RevokeState(s, id), s.devices[id].network;
      Ipam.RecycleExact(s.ipams[n].leases, s.devices[id].key);
      ReplacedTableExact(s.ipams, n, s'.ipams[n]);
      ExactIsShaped(s');
      RevokeKeepsLeases(s, id);
      RevokeKeepsRefs(s, id);
    }
  }

  lemma NewNetworkKeepsInv(s: Inner, name: string, ula: nat)
    requires Inv(s)
    ensures Inv(NetworkState(s, name, ula))
  {
  }

  /** Devices, allocators and the set of networks are as before. */
  predicate SameCore(s: Inner, s': Inner) {
    s'.devices == s.devices && s'.ipams == s.ipams && s'.networks.Keys == s.networks.Keys
  }

  lemma InviteKeepsRefs(s: Inner, network: Id, expiresAt: Option<int>, maxUses: Option<nat>, code: Code)
    requires Refs(s)
    ensures var s' := InviteState(s, network, expiresAt, maxUses, code); Refs(s') && SameCore(s, s')
  {
  }

  lemma EndpointsKeepRefs(s: Inner, device: Id, endpoints: seq<string>)
    requires Refs(s)
    ensures var s' := EndpointsState(s, device, endpoints); Refs(s') && SameCore(s, s')
  {
  }

  lemma AdvertiseKeepsRefs(s: Inner, device: Id, prefix: Option<Prefix>)
    requires Refs(s)
    ensures var s' := AdvertiseState(s, device, prefix); Refs(s') && SameCore(s, s')
  {
  }

  lemma ApproveKeepsRefs(s: Inner, route: Id)
    requires Refs(s)
    ensures var s' := ApproveState(s, route); Refs(s') && SameCore(s, s')
  {
  }

  lemma DeleteRouteKeepsRefs(s: Inner, route: Id)
    requires Refs(s)
    ensures var s' := DeleteRouteState(s, route); Refs(s') && SameCore(s, s')
  {
  }

  lemma RelaysKeepRefs(s: Inner, relay: Id, scope: Option<Id>, body: string)
    requires Refs(s)
    ensures var s' := RegisterRelayState(s, scope, body); Refs(s') && SameCore(s, s')
    ensures var s' := UpdateRelayState(s, relay, scope, body); Refs(s') && SameCore(s, s')
  {
  }

  lemma OtherStepKeepsRefs(s: Inner, op: Op)
    requires TablesShaped(s) && Refs(s) && !op.CreateNetwork? && !op.Enroll? && !op.Import? && !op.Revoke?
    ensures var s' := Apply(s, op); Refs(s') && SameCore(s, s')
  {
    match op {
      case CreateInvite(network, expiresAt, maxUses, code) => InviteKeepsRefs(s, network, expiresAt, maxUses, code);
      case SetEndpoints(device, endpoints) => EndpointsKeepRefs(s, device, endpoints);
      case AdvertiseRoute(device, prefix) => AdvertiseKeepsRefs(s, device, prefix);
      case ApproveRoute(route) => ApproveKeepsRefs(s, route);
      case DeleteRoute(route) => DeleteRouteKeepsRefs(s, route);
      case RegisterRelay(scope, body) => RelaysKeepRefs(s, 0, scope, body);
      case UpdateRelay(relay, scope, body) => RelaysKeepRefs(s, relay, scope, body);
    }
  }

  /** Every operation leaves every allocator exact and every lease with an active device. */
  lemma StepKeepsInv(s: Inner, op: Op)
    requires Inv(s)
    ensures Inv(Apply(s, op))
  {
    match op {
      case CreateNetwork(name, ula) => NewNetworkKeepsInv(s, name, ula);
      case Enroll(code, name, key, now) => if key.Some? { EnrollKeepsInv(s, code, name, key.value, now); }
      case Import(network, entries) => ImportKeepsInv(s, network, entries);
      case Revoke(device) => RevokeKeepsInv(s, device);
      case _ =>
        OtherStepKeepsRefs(s, op);
        SameDevicesKeepBase(s, Apply(s, op));
    }
  }

  /** So every state any run reaches from a new store has exact allocators, and every lease with an
      active device. */
  lemma {:induction false} RunKeepsInv(s: Inner, ops: seq<Op>)
    requires Inv(s)
    ensures Inv(Run(s, ops))
    decreases |ops|
  {
    if ops != [] {
      StepKeepsInv(s, ops[0]);
      RunKeepsInv(Apply(s, ops[0]), ops[1..]);
    }
  }

  lemma InitialInv()
    ensures Inv(Initial())
  {
  }

  /** The state a new store is in after these operations. */
  function Reached(ops: seq<Op>): (s: Inner)
    ensures Inv(s)
  {
    InitialInv();
    RunKeepsInv(Initial(), ops);
    Run(Initial(), ops)
  }
}
