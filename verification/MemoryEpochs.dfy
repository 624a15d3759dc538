/**
 What a device pulls from the in-memory store, and why the network epoch covers it: no
 run changes a device's configuration without raising its network's `config_epoch`.
 */
module MemoryEpochs {
  import opened Common
  import opened HostPool
  import opened MemoryStore
  import Ipam

  // ---- `device_config` -------------------------------------------------------------------

  /** Lists built from hash maps are kept indexed by the id of the row they came from. */
  datatype PeerConfig = PeerConfig(key: Key, v4: Option<V4>, v6: Option<V6>, routed: map<Id, Prefix>,
                                   endpoints: seq<string>, exit: bool)
  datatype DeviceConfig = DeviceConfig(overlay: (nat, nat), network: Id, epoch: nat, v4: Option<V4>, v6: Option<V6>,
                                       peers: map<Id, PeerConfig>, relays: map<Id, Relay>, selfExit: bool)

  function Approved(s: Inner, n: Id): map<Id, Route> {
    map r | r in s.routes && s.routes[r].network == n && s.routes[r].approved :: s.routes[r]
  }

  function RoutedBy(approved: map<Id, Route>, device: Id): map<Id, Prefix> {
    map r | r in approved && approved[r].device == device :: approved[r].prefix
  }

  predicate IsExit(approved: map<Id, Route>, device: Id) {
    exists r | r in approved :: approved[r].device == device && IsDefault(approved[r].prefix)
  }

  function EndpointsOf(s: Inner, device: Id): seq<string> {
    if device in s.endpoints then s.endpoints[device] else []
  }

  function Peer(s: Inner, n: Id, id: Id): PeerConfig
    requires id in s.devices
  {
    var d, approved := s.devices[id], Approved(s, n);
    PeerConfig(d.key, d.v4, d.v6, RoutedBy(approved, id), EndpointsOf(s, id), IsExit(approved, id))
  }

  function RelaysFor(s: Inner, n: Id): map<Id, Relay> {
    map r | r in s.relays && (s.relays[r].scope == Some(n) || s.relays[r].scope.None?) :: s.relays[r]
  }

  function Config(s: Inner, id: Id): Option<DeviceConfig> {
    if id !in s.devices || !s.devices[id].active then None
    else
      var me := s.devices[id];
      var n := me.network;
      var (overlay, epoch) := if n in s.networks then ((s.networks[n].octet, s.networks[n].ula), s.networks[n].epoch) else ((0, 0), 0);
      Some(DeviceConfig(overlay, n, epoch, me.v4, me.v6,
                        map p | p in s.devices && ActiveIn(s.devices[p], n) && p != id :: Peer(s, n, p),
                        RelaysFor(s, n),
                        IsExit(Approved(s, n), id)))
  }

  // ---- What a network's configurations can depend on ------------------------------------------

  datatype NetView = NetView(pool: (nat, nat), devices: map<Id, Device>, approved: map<Id, Route>,
                             relays: map<Id, Relay>, endpoints: map<Id, seq<string>>)

  function ActiveDevices(s: Inner, n: Id): map<Id, Device> {
    map id | id in s.devices && ActiveIn(s.devices[id], n) :: s.devices[id]
  }

  function EndpointsIn(s: Inner, n: Id): map<Id, seq<string>> {
    map id | id in s.devices && ActiveIn(s.devices[id], n) :: EndpointsOf(s, id)
  }

  function View(s: Inner, n: Id): NetView
    requires n in s.networks
  {
    NetView((s.networks[n].octet, s.networks[n].ula), ActiveDevices(s, n), Approved(s, n), RelaysFor(s, n), EndpointsIn(s, n))
  }

  function Visible(c: DeviceConfig): DeviceConfig {
    c.(epoch := 0)
  }

  /** Equal views give equal configurations up to the epoch. */
  lemma ViewDeterminesConfig(s: Inner, s': Inner, n: Id, id: Id)
    requires n in s.networks && n in s'.networks && View(s, n) == View(s', n)
    requires Config(s, id).Some? && s.devices[id].network == n
    ensures Config(s', id).Some? && Visible(Config(s', id).value) == Visible(Config(s, id).value)
  {
    assert id in ActiveDevices(s, n) && ActiveDevices(s, n) == ActiveDevices(s', n);
    var c, c' := Config(s, id).value, Config(s', id).value;
    assert c.peers.Keys == c'.peers.Keys by {
      assert forall p :: p in c.peers <==> p in ActiveDevices(s, n) && p != id;
      assert forall p :: p in c'.peers <==> p in ActiveDevices(s', n) && p != id;
    }
    forall p | p in c.peers
      ensures c.peers[p] == c'.peers[p]
    {
      assert p in ActiveDevices(s, n) && ActiveDevices(s, n)[p] == ActiveDevices(s', n)[p];
      assert p in EndpointsIn(s, n) && EndpointsIn(s, n)[p] == EndpointsIn(s', n)[p];
    }
  }

  // ---- One step -----------------------------------------------------------------------------

  /** The epoch never falls, and rises whenever the network's view changes. */
  ghost predicate Covers(s: Inner, s': Inner, n: Id) {
    && n in s.networks && n in s'.networks
    && s.networks[n].epoch <= s'.networks[n].epoch
    && (View(s, n) != View(s', n) ==> s.networks[n].epoch < s'.networks[n].epoch)
  }

  lemma SameViewCovers(s: Inner, s': Inner, n: Id)
    requires n in s.networks && n in s'.networks && s'.networks[n] == s.networks[n]
    requires ActiveDevices(s', n) == ActiveDevices(s, n) && Approved(s', n) == Approved(s, n)
    requires RelaysFor(s', n) == RelaysFor(s, n) && EndpointsIn(s', n) == EndpointsIn(s, n)
    ensures Covers(s, s', n)
  {
  }

  lemma CoversTransitive(a: Inner, b: Inner, c: Inner, n: Id)
    requires Covers(a, b, n) && Covers(b, c, n)
    ensures Covers(a, c, n)
  {
  }

  /** A device was added to (or changed in) network m, which was bumped unless it is not n. */
  lemma ForeignDeviceInvisible(s: Inner, s': Inner, n: Id, id: Id)
    requires n in s.networks && n in s'.networks && s'.networks[n] == s.networks[n]
    requires id in s.devices ==> s.devices[id].network != n
    requires id in s'.devices && s'.devices[id].network != n && s'.devices == s.devices[id := s'.devices[id]]
    requires forall x | x != id :: EndpointsOf(s', x) == EndpointsOf(s, x)
    requires s'.routes == s.routes && s'.relays == s.relays
    ensures Covers(s, s', n)
  {
    assert forall x | x != id :: (x in s.devices <==> x in s'.devices) && (x in s.devices ==> s'.devices[x] == s.devices[x]);
    assert ActiveDevices(s', n) == ActiveDevices(s, n);
    assert EndpointsIn(s', n) == EndpointsIn(s, n);
    SameViewCovers(s, s', n);
  }

  lemma EnrollCovers(s: Inner, code: Code, name: string, key: Key, now: int, n: Id)
    requires TablesShaped(s) && Refs(s) && n in s.networks
    ensures Covers(s, EnrollState(s, code, name, key, now), n)
  {
    var s' := EnrollState(s, code, name, key, now);
    if s' != s && n != s.invites[code].network {
      ForeignDeviceInvisible(s, s', n, s.seqno);
    }
  }

  /** Importing touches only the importing network, epoch included. */
  lemma {:induction false} ImportForeignInvisible(s: Inner, network: Id, entries: seq<Entry>, n: Id)
    requires TablesShaped(s) && Refs(s) && network in s.networks && n in s.networks && n != network
    requires forall e | e in entries :: e.key.Some?
    ensures Covers(s, ImportEntries(s, network, entries), n)
    decreases |entries|
  {
    if entries != [] {
      assert entries[0] in entries;
      var s1 := ImportEntry(s, network, entries[0]);
      ImportEntryForeign(s, network, entries[0], n);
      ImportForeignInvisible(s1, network, entries[1..], n);
      CoversTransitive(s, s1, ImportEntries(s1, network, entries[1..]), n);
    }
  }

  lemma ImportEntryForeign(s: Inner, network: Id, e: Entry, n: Id)
    requires TablesShaped(s) && Refs(s) && network in s.networks && n in s.networks && n != network && e.key.Some?
    ensures var s1 := ImportEntry(s, network, e); Refs(s1) && s1.networks == s.networks && Covers(s, s1, n)
  {
    if !ActiveKey(s, network, e.key.value) { ForeignDeviceInvisible(s, ImportEntry(s, network, e), n, s.seqno); }
  }

  /** Importing does not itself touch epochs, and changes nothing when it creates no device. */
  lemma {:induction false} ImportEntriesFrame(s: Inner, network: Id, entries: seq<Entry>)
    requires TablesShaped(s) && forall e | e in entries :: e.key.Some?
    ensures var s' := ImportEntries(s, network, entries); s'.networks == s.networks && s'.seqno >= s.seqno && (s'.seqno == s.seqno ==> s' == s)
    decreases |entries|
  {
    if entries != [] {
      assert entries[0] in entries;
      ImportEntriesFrame(ImportEntry(s, network, entries[0]), network, entries[1..]);
    }
  }

  lemma BumpCovers(s: Inner, s1: Inner, n: Id, ids: set<Id>)
    requires n in s.networks && s1.networks == s.networks && n in ids
    ensures Covers(s, s1.(networks := Bump(s1.networks, ids)), n)
  {
  }

  lemma BumpElsewhereCovers(s: Inner, n: Id, ids: set<Id>)
    requires n in s.networks && n !in ids
    ensures Covers(s, s.(networks := Bump(s.networks, ids)), n)
  {
  }

  lemma ImportCovers(s: Inner, network: Id, entries: seq<Entry>, n: Id)
    requires TablesShaped(s) && Refs(s) && n in s.networks
    ensures Covers(s, ImportState(s, network, entries), n)
  {
    if (forall e | e in entries :: e.key.Some?) && network in s.networks {
      var s1 := ImportEntries(s, network, entries);
      ImportEntriesFrame(s, network, entries);
      if n == network {
        if s1.seqno != s.seqno { BumpCovers(s, s1, n, {network}); }
      } else {
        ImportForeignInvisible(s, network, entries, n);
        BumpElsewhereCovers(s1, n, {network});
        if s1.seqno != s.seqno { CoversTransitive(s, s1, ImportState(s, network, entries), n); }
      }
    }
  }

  lemma RevokeCovers(s: Inner, id: Id, n: Id)
    requires TablesShaped(s) && Refs(s) && n in s.networks
    ensures Covers(s, RevokeState(s, id), n)
  {
    if id in s.devices && s.devices[id].network != n { ForeignDeviceInvisible(s, RevokeState(s, id), n, id); }
  }

  lemma NewNetworkCovers(s: Inner, name: string, ula: nat, n: Id)
    requires TablesShaped(s) && Refs(s) && n in s.networks
    ensures Covers(s, NetworkState(s, name, ula), n)
  {
  }

  lemma InviteCovers(s: Inner, network: Id, expiresAt: Option<int>, maxUses: Option<nat>, code: Code, n: Id)
    requires n in s.networks
    ensures Covers(s, InviteState(s, network, expiresAt, maxUses, code), n)
  {
  }

  lemma EndpointsCover(s: Inner, device: Id, endpoints: seq<string>, n: Id)
    requires n in s.networks
    ensures Covers(s, EndpointsState(s, device, endpoints), n)
  {
  }

  lemma AdvertiseCovers(s: Inner, device: Id, prefix: Option<Prefix>, n: Id)
    requires TablesShaped(s) && Refs(s) && n in s.networks
    ensures Covers(s, AdvertiseState(s, device, prefix), n)
  {
    var s' := AdvertiseState(s, device, prefix);
    assert Approved(s', n) == Approved(s, n);
    SameViewCovers(s, s', n);
  }

  lemma ApproveCovers(s: Inner, route: Id, n: Id)
    requires n in s.networks
    ensures Covers(s, ApproveState(s, route), n)
  {
  }

  lemma DeleteRouteCovers(s: Inner, route: Id, n: Id)
    requires n in s.networks
    ensures Covers(s, DeleteRouteState(s, route), n)
  {
  }

  lemma RegisterRelayCovers(s: Inner, scope: Option<Id>, body: string, n: Id)
    requires TablesShaped(s) && Refs(s) && n in s.networks
    ensures Covers(s, RegisterRelayState(s, scope, body), n)
  {
  }

  lemma UpdateRelayCovers(s: Inner, relay: Id, scope: Option<Id>, body: string, n: Id)
    requires n in s.networks
    ensures Covers(s, UpdateRelayState(s, relay, scope, body), n)
  {
  }

  lemma StepCovers(s: Inner, op: Op, n: Id)
    requires TablesShaped(s) && Refs(s) && n in s.networks
    ensures Covers(s, Apply(s, op), n)
  {
    match op {
      case CreateNetwork(name, ula) => NewNetworkCovers(s, name, ula, n);
      case CreateInvite(network, expiresAt, maxUses, code) => InviteCovers(s, network, expiresAt, maxUses, code, n);
      case Enroll(code, name, key, now) => if key.Some? { EnrollCovers(s, code, name, key.value, now, n); }
      case Import(network, entries) => ImportCovers(s, network, entries, n);
      case Revoke(device) => RevokeCovers(s, device, n);
      case SetEndpoints(device, endpoints) => EndpointsCover(s, device, endpoints, n);
      case AdvertiseRoute(device, prefix) => AdvertiseCovers(s, device, prefix, n);
      case ApproveRoute(route) => ApproveCovers(s, route, n);
      case DeleteRoute(route) => DeleteRouteCovers(s, route, n);
      case RegisterRelay(scope, body) => RegisterRelayCovers(s, scope, body, n);
      case UpdateRelay(relay, scope, body) => UpdateRelayCovers(s, relay, scope, body, n);
    }
  }

  /** Everything one operation keeps: the invariant, and the epoch of every network. */
  lemma StepKept(s: Inner, op: Op)
    requires Inv(s)
    ensures Kept(s, Apply(s, op))
  {
    StepKeepsInv(s, op);
    forall n | n in s.networks
      ensures Covers(s, Apply(s, op), n)
    {
      StepCovers(s, op, n);
    }
  }

  ghost predicate Kept(s: Inner, s': Inner) {
    Inv(s') && forall n | n in s.networks :: Covers(s, s', n)
  }

  // ---- Whole runs -------------------------------------------------------------------------------

  /** Over any run from any sound state, the empty one included: no epoch of a network that existed
      falls, and it has risen if the network's view changed. */
  lemma {:induction false} RunCovers(s: Inner, ops: seq<Op>)
    requires Inv(s)
    ensures Kept(s, Run(s, ops))
    decreases |ops|
  {
    if ops != [] {
      var s1 := Apply(s, ops[0]);
      StepKept(s, ops[0]);
      RunCovers(s1, ops[1..]);
      forall n | n in s.networks
        ensures Covers(s, Run(s, ops), n)
      {
        CoversTransitive(s, s1, Run(s, ops), n);
      }
    }
  }

  /** Devices are never deleted and never change network. */
  ghost predicate Persists(s: Inner, s': Inner, id: Id) {
    id in s.devices ==> id in s'.devices && s'.devices[id].network == s.devices[id].network
  }

  lemma {:induction false} ImportPersists(s: Inner, network: Id, entries: seq<Entry>, id: Id)
    requires TablesShaped(s) && (forall x | x in s.devices :: x < s.seqno) && forall e | e in entries :: e.key.Some?
    ensures Persists(s, ImportEntries(s, network, entries), id)
    decreases |entries|
  {
    if entries != [] {
      assert entries[0] in entries;
      ImportPersists(ImportEntry(s, network, entries[0]), network, entries[1..], id);
    }
  }

  lemma EnrollPersists(s: Inner, op: Op, id: Id)
    requires TablesShaped(s) && Refs(s) && op.Enroll?
    ensures Persists(s, Apply(s, op), id)
  {
  }

  lemma RevokePersists(s: Inner, op: Op, id: Id)
    requires TablesShaped(s) && Refs(s) && op.Revoke?
    ensures Persists(s, Apply(s, op), id)
  {
  }

  lemma StepPersists(s: Inner, op: Op, id: Id)
    requires TablesShaped(s) && Refs(s)
    ensures Persists(s, Apply(s, op), id)
  {
    match op {
      case Import(network, entries) =>
        if forall e | e in entries :: e.key.Some? { ImportPersists(s, network, entries, id); }
      case CreateNetwork(_, _) =>
      case Enroll(_, _, _, _) => EnrollPersists(s, op, id);
      case Revoke(_) => RevokePersists(s, op, id);
      case _ => OtherStepKeepsRefs(s, op);
    }
  }

  lemma {:induction false} RunPersists(s: Inner, ops: seq<Op>, id: Id)
    requires Inv(s)
    ensures Persists(s, Run(s, ops), id)
    decreases |ops|
  {
    if ops != [] {
      StepKeepsInv(s, ops[0]);
      StepPersists(s, ops[0], id);
      RunPersists(Apply(s, ops[0]), ops[1..], id);
    }
  }

  /** If a device's configuration before and after any run differs in anything but the epoch,
      the epoch it carries has strictly increased; it never decreases. */
  lemma EpochCoversConfig(s: Inner, ops: seq<Op>, id: Id)
    requires Inv(s) && Config(s, id).Some? && Config(Run(s, ops), id).Some?
    ensures
      var c, c' := Config(s, id).value, Config(Run(s, ops), id).value;
      && c.epoch <= c'.epoch
      && (Visible(c) != Visible(c') ==> c.epoch < c'.epoch)
  {
    var n := s.devices[id].network;
    RunCovers(s, ops);
    RunPersists(s, ops, id);
    if View(s, n) == View(Run(s, ops), n) { ViewDeterminesConfig(s, Run(s, ops), n, id); }
  }

  // ---- Allocation over runs ------------------------------------------------------------------------

  /** In every state a new store reaches: a host of a network is marked used exactly when one active
      device of the network leases it, and no two do. */
  lemma ReachableAllocatorsAreExact(ops: seq<Op>, n: Id, h: nat)
    requires n in Reached(ops).networks && h < 256
    ensures
      var s := Reached(ops);
      && n in s.ipams && Ipam.Exact(s.ipams[n].leases)
      && (s.ipams[n].leases.used[h] <==> exists k :: Leases(s, n, k, h))
      && (forall k, k' | Leases(s, n, k, h) && Leases(s, n, k', h) :: k == k')
      && (forall k | Leases(s, n, k, h) :: ActiveKey(s, n, k))
  {
    var s := Reached(ops);
    var leases := s.ipams[n].leases;
    assert Ipam.Exact(leases);
    assert Ipam.Leased(leases, h) <==> exists k :: Leases(s, n, k, h) by {
      if Ipam.Leased(leases, h) {
        var k :| k in leases.byKey && leases.byKey[k] == h;
        assert Leases(s, n, k, h);
      }
    }
  }

  predicate Leases(s: Inner, n: Id, k: Key, h: nat) {
    n in s.ipams && k in s.ipams[n].leases.byKey && s.ipams[n].leases.byKey[k] == h
  }

  lemma EnrolleeOf(s: Inner, code: Code, name: string, key: Key, now: int)
    requires Inv(s) && code in s.invites && Redeemable(s.invites[code], now)
    requires !ActiveKey(s, s.invites[code].network, key)
    ensures EnrolleePlaced(s, code, name, key, now)
  {
    var n := s.invites[code].network;
    var leases := s.ipams[n].leases;
    InactiveKeyUnleased(s, n, key);
    Ipam.AllocateExact(leases, key);
    if Ipam.Allocate(leases, key).Some? {
      var h := Ipam.Allocate(leases, key).value.0;
      assert EnrollState(s, code, name, key, now).seqno == s.seqno + 1;
      assert LeastUnleased(leases, h);
    }
  }

  ghost predicate LeastUnleased(leases: Ipam.Leases, h: nat) {
    && DEVICE_HOST_MIN <= h <= DEVICE_HOST_MAX && !Ipam.Leased(leases, h)
    && forall g: nat | DEVICE_HOST_MIN <= g < h :: Ipam.Leased(leases, g)
  }

  /** The enrollee gets the least host of 100..=249 nobody leases, in both families; nothing is
      created exactly when all 150 are leased. */
  ghost predicate EnrolleePlaced(s: Inner, code: Code, name: string, key: Key, now: int)
    requires TablesShaped(s) && code in s.invites
  {
    var n := s.invites[code].network;
    var s' := EnrollState(s, code, name, key, now);
    && n in s.ipams
    && (s' == s <==> forall h: nat | DEVICE_HOST_MIN <= h <= DEVICE_HOST_MAX :: Ipam.Leased(s.ipams[n].leases, h))
    && (s' != s ==> exists h: nat ::
          && LeastUnleased(s.ipams[n].leases, h)
          && s'.devices == s.devices[s.seqno := Device(n, name, key, Some(Dotted(100, 72, s.ipams[n].octet, h)),
                                                       Some(Host6(s.ipams[n].ula, h)), true)])
  }

  /** In every state a new store reaches, a redeemable invite places a key that is not active. */
  lemma EnrolleeGetsLeastFreeHost(ops: seq<Op>, code: Code, name: string, key: Key, now: int)
    requires code in Reached(ops).invites && Redeemable(Reached(ops).invites[code], now)
    requires !ActiveKey(Reached(ops), Reached(ops).invites[code].network, key)
    ensures EnrolleePlaced(Reached(ops), code, name, key, now)
  {
    EnrolleeOf(Reached(ops), code, name, key, now);
  }
}
